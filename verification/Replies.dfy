/** What each event of the page comes to, field by field and without the
    handlers' names: for the card it concerns, and for every other card. */
module Replies {
  import opened Wrappers
  import opened Database
  import P = Page

  /** The quantity the page still means to save for a card: unsent or in flight. */
  function Pursued(p: P.Page, id: P.Id): Option<nat>
    requires id in p.cards
  {
    if p.cards[id].pending.Some? then p.cards[id].pending
    else if p.active.Some? && p.active.value.id == id then Some(p.active.value.quantity)
    else None
  }

  /** The row a reply has for a card that is still on the page. */
  function RowFor(p: P.Page, rows: map<P.Id, Row>, id: P.Id): Option<Row>
    requires id in p.cards
  {
    if p.cards[id].listed && id in rows then Some(rows[id]) else None
  }

  /** Stock, saved quantity and availability are those of the row, if any. */
  predicate Informed(c: P.Card, row: Option<Row>, c': P.Card) {
    match row
    case None => c'.max == c.max && c'.serverValue == c.serverValue && c'.available == c.available
    case Some(r) => c'.max == r.stock && c'.serverValue == r.quantity && c'.available == r.available
  }

  predicate Locks(row: Option<Row>) {
    row.Some? && !row.value.available
  }

  /** The text of an input that shows the row's quantity unless it is kept. */
  function DraftAfter(c: P.Card, row: Option<Row>, keep: bool): Option<nat> {
    if row.None? || keep then c.draft else Some(row.value.quantity)
  }

  predicate IsValid(draft: Option<nat>, max: nat) {
    draft.Some? && draft.value <= 9_007_199_254_740_991 && draft.value <= max
  }

  // -------------------------------------------------------------------- draining

  /** Draining changes no card but to put its unsent quantity in flight. */
  predicate DrainedCard(c: P.Card, c': P.Card) {
    && c'.draft == c.draft && c'.max == c.max && c'.armed == c.armed && c'.serverValue == c.serverValue
    && c'.available == c.available && c'.listed == c.listed
    && (c.pending.None? || c'.pending.Some? ==> c'.pending == c.pending && c'.lastAttempt == c.lastAttempt)
  }

  lemma {:induction false} DrainKeepsCards(p: P.Page)
    requires P.Known(p)
    ensures P.Drain(p).revision == p.revision && P.Drain(p).basketOnly == p.basketOnly
    ensures forall id :: id in p.cards ==>
              DrainedCard(p.cards[id], P.Drain(p).cards[id]) && Pursued(P.Drain(p), id) == Pursued(p, id)
    decreases |p.queue|
  {
    if p.active.None? && p.queue != [] && p.cards[p.queue[0]].pending.None? {
      DrainKeepsCards(P.Popped(p));
    }
  }

  /** The page once the reply's handler has let go of the request. */
  lemma ReleaseKeepsCards(p: P.Page, response: P.Response)
    requires P.Known(p) && p.active.Some?
    ensures var s, r := P.Settle(p, response), P.Handle(p, P.Receive(response));
            forall id :: id in p.cards ==>
              DrainedCard(s.cards[id], r.cards[id]) && Pursued(r, id) == s.cards[id].pending
  {
    hide P.Settle, P.Drain;
    DrainKeepsCards(P.Settle(p, response).(active := None));
  }

  // ------------------------------------------------------------------- snapshots

  function Seen(c: P.Card, row: Option<Row>, keep: bool): P.Card {
    if row.None? then c else P.Refresh(c, row.value, keep)
  }

  lemma SeenMeans(c: P.Card, row: Option<Row>, keep: bool)
    ensures var c' := Seen(c, row, keep);
            && Informed(c, row, c') && c'.draft == DraftAfter(c, row, keep)
            && c'.listed == c.listed && c'.queued == c.queued
            && c'.armed == (c.armed && !Locks(row))
            && c'.pending == (if Locks(row) then None else c.pending)
            && c'.lastAttempt == (if Locks(row) then None else c.lastAttempt)
  {
  }

  lemma SnapshotFor(p: P.Page, payload: P.Payload, preserve: set<P.Id>, id: P.Id)
    requires id in p.cards
    ensures var q := P.ApplySnapshot(p, payload, preserve);
            && q.cards.Keys == p.cards.Keys && q.active == p.active && q.queue == p.queue
            && q.basketOnly == p.basketOnly
            && q.cards[id] == Seen(p.cards[id], RowFor(p, payload.rows, id), id in preserve)
  {
    hide P.Refresh;
  }

  lemma EnqueueWhileActive(p: P.Page, id: P.Id, j: P.Id)
    requires P.Known(p) && p.active.Some? && id in p.cards && j in p.cards
    ensures P.Enqueue(p, id).cards[j] == if j == id then p.cards[j].(queued := true) else p.cards[j]
  {
  }

  function PayloadRows(response: P.Response): map<P.Id, Row> {
    if response.Parsed? then response.payload.rows else map[]
  }

  /** The answered card when the handler is done, before the page drains. */
  lemma SettledOutOfRange(p: P.Page, payload: P.Payload)
    requires P.Known(p) && p.active.Some?
    ensures var id := p.active.value.id;
            var c := p.cards[id];
            var seen := Seen(c, RowFor(p, payload.rows, id), c.pending.Some? && c.listed);
            P.Settle(p, P.Parsed(OutOfRange, payload)).cards[id] ==
              if c.pending.Some? && IsValid(seen.draft, seen.max) then seen.(queued := true)
              else seen.(pending := None, lastAttempt := None, draft := Some(seen.serverValue))
  {
    hide P.ApplySnapshot, P.Enqueue, Seen;
    var id := p.active.value.id;
    SnapshotFor(p, payload, P.PendingIds(p), id);
    EnqueueWhileActive(P.ApplySnapshot(p, payload, P.PendingIds(p)), id, id);
  }

  lemma SettledSaved(p: P.Page, payload: P.Payload)
    requires P.Known(p) && p.active.Some?
    ensures var id := p.active.value.id;
            var c := p.cards[id];
            var persisted := if id in payload.rows then payload.rows[id].quantity else 0;
            var seen := Seen(c, RowFor(p, payload.rows, id), (c.pending.Some? && c.listed) || !IsValid(c.draft, c.max));
            P.Settle(p, P.Parsed(Saved, payload)).cards[id] ==
              if !IsValid(c.draft, c.max) then seen
              else if seen.pending.Some? && seen.pending.value != persisted then seen.(queued := true)
              else seen.(pending := None, draft := Some(persisted), lastAttempt := None,
                         listed := seen.listed && !(p.basketOnly && persisted == 0))
  {
    hide P.ApplySnapshot, P.Enqueue, Seen;
    var id := p.active.value.id;
    var preserve := P.PendingIds(p) + (if P.ParsedQuantity(p.cards[id]).None? then {id} else {});
    SnapshotFor(p, payload, preserve, id);
    EnqueueWhileActive(P.ApplySnapshot(p, payload, preserve), id, id);
  }

  lemma SettledRefused(p: P.Page, response: P.Response)
    requires P.Known(p) && p.active.Some?
    requires response.Parsed? ==> response.code.Stale? || response.code.SaveFailed? || response.code.Malformed?
    ensures var id := p.active.value.id;
            var c := p.cards[id];
            var seen := Seen(c.(pending := None), RowFor(p, PayloadRows(response), id), true);
            P.Settle(p, response).cards[id] ==
              if !seen.available then seen
              else seen.(lastAttempt := if c.pending.Some? then c.pending else Some(p.active.value.quantity))
  {
    hide P.ApplySnapshot, P.Refresh, P.PendingIds;
    if response.Parsed? {
      var id := p.active.value.id;
      var cleared := P.WithCard(p, id, p.cards[id].(pending := None));
      SnapshotFor(cleared, response.payload, {id} + P.PendingIds(cleared), id);
    }
  }

  // ------------------------------------------------- replies, for the card they answer

  /** item_unavailable locks the card, whether or not the reply has a row for it. */
  lemma UnavailableReplyLocks(p: P.Page, payload: P.Payload)
    requires P.Known(p) && p.active.Some?
    ensures var id := p.active.value.id;
            var r := P.Handle(p, P.Receive(P.Parsed(Unavailable, payload)));
            var c, c', row := p.cards[id], r.cards[id], RowFor(p, payload.rows, id);
            && !c'.available && c'.pending.None? && c'.lastAttempt.None? && !c'.armed && Pursued(r, id).None?
            && c'.draft == DraftAfter(c, row, false) && c'.listed == c.listed
            && c'.max == (if row.Some? then row.value.stock else c.max)
            && c'.serverValue == (if row.Some? then row.value.quantity else c.serverValue)
  {
    ReleaseKeepsCards(p, P.Parsed(Unavailable, payload));
    hide P.Handle, P.Drain, P.ApplySnapshot, Seen, Pursued;
    var id := p.active.value.id;
    var cleared := P.WithCard(p, id, p.cards[id].(pending := None, lastAttempt := None));
    SnapshotFor(cleared, payload, {}, id);
    SeenMeans(cleared.cards[id], RowFor(p, payload.rows, id), false);
  }

  /** item_not_found gives the wish up, and otherwise only shows the reply. */
  lemma NotFoundReplyForgets(p: P.Page, payload: P.Payload)
    requires P.Known(p) && p.active.Some?
    ensures var id := p.active.value.id;
            var r := P.Handle(p, P.Receive(P.Parsed(NotFound, payload)));
            var c, c', row := p.cards[id], r.cards[id], RowFor(p, payload.rows, id);
            && c'.pending.None? && Pursued(r, id).None? && Informed(c, row, c')
            && c'.draft == DraftAfter(c, row, false) && c'.listed == c.listed
            && c'.lastAttempt == (if Locks(row) then None else c.lastAttempt)
            && c'.armed == (c.armed && !Locks(row))
  {
    ReleaseKeepsCards(p, P.Parsed(NotFound, payload));
    hide P.Handle, P.Drain, P.ApplySnapshot, Seen, Pursued;
    var id := p.active.value.id;
    var cleared := P.WithCard(p, id, p.cards[id].(pending := None));
    SnapshotFor(cleared, payload, {}, id);
    SeenMeans(cleared.cards[id], RowFor(p, payload.rows, id), false);
  }

  /** quantity_out_of_range: a newer wish that the new stock allows is pursued;
      otherwise the card shows what the server has and remembers nothing. */
  lemma OutOfRangeReply(p: P.Page, payload: P.Payload)
    requires P.Known(p) && p.active.Some?
    ensures var id := p.active.value.id;
            var r := P.Handle(p, P.Receive(P.Parsed(OutOfRange, payload)));
            var c, c', row := p.cards[id], r.cards[id], RowFor(p, payload.rows, id);
            var draft := DraftAfter(c, row, c.pending.Some? && c.listed);
            && Informed(c, row, c') && c'.listed == c.listed
            && c'.armed == (c.armed && !Locks(row))
            && if c.pending.Some? && IsValid(draft, c'.max)
               then c'.draft == draft && Pursued(r, id) == (if Locks(row) then None else c.pending)
               else && c'.draft == Some(c'.serverValue) && c'.lastAttempt.None?
                    && c'.pending.None? && Pursued(r, id).None?
  {
    ReleaseKeepsCards(p, P.Parsed(OutOfRange, payload));
    hide P.Handle, P.Settle, P.ParsedQuantity, Pursued, Seen;
    var id := p.active.value.id;
    var c, row := p.cards[id], RowFor(p, payload.rows, id);
    SettledOutOfRange(p, payload);
    SeenMeans(c, row, c.pending.Some? && c.listed);
  }

  /** A saved reply: an invalid draft stays with whatever is still unsent; a
      newer wish is pursued; otherwise the card shows the saved quantity, and
      the basket-only view drops a card without any. */
  lemma SavedReply(p: P.Page, payload: P.Payload)
    requires P.Known(p) && p.active.Some?
    ensures var id := p.active.value.id;
            var r := P.Handle(p, P.Receive(P.Parsed(Saved, payload)));
            var c, c', row := p.cards[id], r.cards[id], RowFor(p, payload.rows, id);
            var persisted := if id in payload.rows then payload.rows[id].quantity else 0;
            var unsent := if Locks(row) then None else c.pending;
            && Informed(c, row, c') && c'.armed == (c.armed && !Locks(row))
            && if !IsValid(c.draft, c.max)
               then c'.draft == c.draft && Pursued(r, id) == unsent && c'.listed == c.listed
               else if unsent.Some? && unsent.value != persisted
               then Pursued(r, id) == unsent && c'.listed == c.listed
               else && c'.draft == Some(persisted) && c'.lastAttempt.None?
                    && c'.pending.None? && Pursued(r, id).None?
                    && c'.listed == (c.listed && !(p.basketOnly && persisted == 0))
  {
    ReleaseKeepsCards(p, P.Parsed(Saved, payload));
    hide P.Handle, P.Settle, P.ParsedQuantity, Pursued, Seen;
    var id := p.active.value.id;
    var c, row := p.cards[id], RowFor(p, payload.rows, id);
    SettledSaved(p, payload);
    SeenMeans(c, row, (c.pending.Some? && c.listed) || !IsValid(c.draft, c.max));
  }

  /** Every other reply, and none at all: nothing is resent, the text stays, and
      the newest wish waits behind the Retry button of an unlocked card. */
  lemma RefusalReply(p: P.Page, response: P.Response)
    requires P.Known(p) && p.active.Some?
    requires response.Parsed? ==> response.code.Stale? || response.code.SaveFailed? || response.code.Malformed?
    ensures var id := p.active.value.id;
            var r := P.Handle(p, P.Receive(response));
            var c, c', row := p.cards[id], r.cards[id], RowFor(p, PayloadRows(response), id);
            && Informed(c, row, c') && c'.listed == c.listed && c'.draft == c.draft
            && c'.pending.None? && Pursued(r, id).None? && c'.armed == (c.armed && !Locks(row))
            && c'.lastAttempt == (if c'.available then
                                    if c.pending.Some? then c.pending else Some(p.active.value.quantity)
                                  else if Locks(row) then None else c.lastAttempt)
  {
    ReleaseKeepsCards(p, response);
    hide P.Handle, P.Settle, Pursued, Seen;
    var id := p.active.value.id;
    SettledRefused(p, response);
    SeenMeans(p.cards[id].(pending := None), RowFor(p, PayloadRows(response), id), true);
  }

  // ------------------------------------------------------- replies, for other cards

  lemma SettledOtherCard(p: P.Page, response: P.Response, id: P.Id)
    requires P.Known(p) && p.active.Some? && id in p.cards && id != p.active.value.id
    ensures var c, row := p.cards[id], RowFor(p, PayloadRows(response), id);
            var careless := response.Parsed? && (response.code.Unavailable? || response.code.NotFound?);
            P.Settle(p, response).cards[id] == Seen(c, row, c.pending.Some? && c.listed && !careless)
  {
    hide P.ApplySnapshot, P.Enqueue, P.HandleSaved, P.HandleStockChange, P.HandleRefused, Seen;
    if response.Parsed? {
      var a, payload := p.active.value.id, response.payload;
      match response.code
      case Saved => SavedForOther(p, payload, id);
      case OutOfRange => StockChangeForOther(p, payload, id);
      case Unavailable =>
        SnapshotFor(P.WithCard(p, a, p.cards[a].(pending := None, lastAttempt := None)), payload, {}, id);
      case NotFound =>
        SnapshotFor(P.WithCard(p, a, p.cards[a].(pending := None)), payload, {}, id);
      case _ => RefusedForOther(p, payload, id);
    } else {
      UnreadableForOther(p, id);
    }
  }

  lemma SavedForOther(p: P.Page, payload: P.Payload, id: P.Id)
    requires P.Known(p) && p.active.Some? && id in p.cards && id != p.active.value.id
    ensures var c := p.cards[id];
            P.HandleSaved(p, p.active.value.id, payload).cards[id] ==
            Seen(c, RowFor(p, payload.rows, id), c.pending.Some? && c.listed)
  {
    hide P.ApplySnapshot, P.Enqueue, Seen;
    var a := p.active.value.id;
    var preserve := P.PendingIds(p) + (if P.ParsedQuantity(p.cards[a]).None? then {a} else {});
    SnapshotFor(p, payload, preserve, id);
    EnqueueWhileActive(P.ApplySnapshot(p, payload, preserve), a, id);
  }

  lemma StockChangeForOther(p: P.Page, payload: P.Payload, id: P.Id)
    requires P.Known(p) && p.active.Some? && id in p.cards && id != p.active.value.id
    ensures var c := p.cards[id];
            P.HandleStockChange(p, p.active.value.id, payload).cards[id] ==
            Seen(c, RowFor(p, payload.rows, id), c.pending.Some? && c.listed)
  {
    hide P.ApplySnapshot, P.Enqueue, Seen;
    SnapshotFor(p, payload, P.PendingIds(p), id);
    EnqueueWhileActive(P.ApplySnapshot(p, payload, P.PendingIds(p)), p.active.value.id, id);
  }

  lemma RefusedForOther(p: P.Page, payload: P.Payload, id: P.Id)
    requires P.Known(p) && p.active.Some? && id in p.cards && id != p.active.value.id
    ensures var c := p.cards[id];
            P.HandleRefused(p, p.active.value.id, p.active.value.quantity, Some(payload)).cards[id] ==
            Seen(c, RowFor(p, payload.rows, id), c.pending.Some? && c.listed)
  {
    hide P.ApplySnapshot, Seen;
    var a := p.active.value.id;
    var cleared := P.WithCard(p, a, p.cards[a].(pending := None));
    SnapshotFor(cleared, payload, {a} + P.PendingIds(cleared), id);
  }

  lemma UnreadableForOther(p: P.Page, id: P.Id)
    requires P.Known(p) && p.active.Some? && id in p.cards && id != p.active.value.id
    ensures P.HandleRefused(p, p.active.value.id, p.active.value.quantity, None).cards[id] == p.cards[id]
    ensures forall keep :: Seen(p.cards[id], None, keep) == p.cards[id]
  {
  }

  /** A reply gives every other card the row it has for it; unsent wishes are
      pursued unless the row locks the card, and so are their texts, except
      after item_unavailable and item_not_found. */
  lemma ReplyForOtherCard(p: P.Page, response: P.Response, id: P.Id)
    requires P.Known(p) && p.active.Some? && id in p.cards && id != p.active.value.id
    ensures var r := P.Handle(p, P.Receive(response));
            var c, c', row := p.cards[id], r.cards[id], RowFor(p, PayloadRows(response), id);
            var careless := response.Parsed? && (response.code.Unavailable? || response.code.NotFound?);
            && Informed(c, row, c') && c'.listed == c.listed
            && c'.draft == DraftAfter(c, row, c.pending.Some? && c.listed && !careless)
            && Pursued(r, id) == (if Locks(row) then None else c.pending)
            && c'.armed == (c.armed && !Locks(row))
            && (Locks(row) ==> c'.pending.None? && c'.lastAttempt.None?)
            && (!Locks(row) && (c.pending.None? || c'.pending.Some?) ==> c'.lastAttempt == c.lastAttempt)
  {
    ReleaseKeepsCards(p, response);
    SettledOtherCard(p, response, id);
    var careless := response.Parsed? && (response.code.Unavailable? || response.code.NotFound?);
    var c, row := p.cards[id], RowFor(p, PayloadRows(response), id);
    SeenMeans(c, row, c.pending.Some? && c.listed && !careless);
    hide P.Handle, P.Settle, Seen;
  }

  // ---------------------------------------------------------- edits, retries, timers

  predicate OnlyCard(p: P.Page, r: P.Page, id: P.Id) {
    && r.cards.Keys == p.cards.Keys && r.revision == p.revision && r.basketOnly == p.basketOnly
    && forall j :: j in p.cards && j != id ==> r.cards[j] == p.cards[j]
  }

  /** A wish handed to the queue goes out at once if nothing is in flight, and
      otherwise waits its turn. */
  ghost predicate HandedOver(p: P.Page, r: P.Page, id: P.Id, quantity: nat) {
    var request := P.Request(id, quantity, p.revision);
    if p.active.None?
    then && r.active == Some(request) && r.wire == p.wire + [request] && r.queue == []
         && id in r.cards && r.cards[id].pending.None?
    else && r.active == p.active && r.wire == p.wire
         && id in r.queue && id in r.cards && r.cards[id].pending == Some(quantity)
         && (forall j :: j in r.queue <==> j in p.queue || j == id)
  }

  lemma EnqueueHandsOver(p: P.Page, id: P.Id)
    requires P.Known(p) && id in p.cards && (p.active.None? ==> p.queue == [] && !p.cards[id].queued)
    requires p.cards[id].queued <==> id in p.queue
    ensures var r := P.Enqueue(p, id);
            && OnlyCard(p, r, id) && DrainedCard(p.cards[id], r.cards[id]) && Pursued(r, id) == Pursued(p, id)
            && (p.cards[id].pending.Some? ==> HandedOver(p, r, id, p.cards[id].pending.value))
            && (p.cards[id].pending.Some? && p.active.None? ==> r.cards[id].lastAttempt == p.cards[id].pending)
            && (p.cards[id].pending.None? ==> r.active == p.active && r.wire == p.wire)
  {
    var q := if p.cards[id].queued then p
             else P.WithCard(p, id, p.cards[id].(queued := true)).(queue := p.queue + [id]);
    DrainKeepsCards(q);
    hide Pursued;
    if p.active.None? {
      assert q.queue == [id];
      if q.cards[id].pending.None? {
        PoppedRests(q);
      }
    }
  }

  lemma PoppedRests(q: P.Page)
    requires P.Known(q) && q.active.None? && |q.queue| == 1 && q.cards[q.queue[0]].pending.None?
    ensures P.Drain(q) == P.Popped(q)
  {
    assert P.Drain(P.Popped(q)) == P.Popped(q);
  }

  /** An edit: a locked card only shows the text; an invalid one gives up what
      was unsent; a valid one is remembered, and saved at once or armed. */
  lemma EditMeans(p: P.Page, id: P.Id, draft: Option<nat>, immediate: bool)
    requires P.AtRest(p) && id in p.cards
    ensures var r := P.Handle(p, P.Edit(id, draft, immediate));
            var c, c' := p.cards[id], r.cards[id];
            && OnlyCard(p, r, id) && c'.draft == draft && c'.max == c.max
            && c'.serverValue == c.serverValue && c'.available == c.available && c'.listed == c.listed
            && (!c.available ==>
                  && c'.pending == c.pending && c'.armed == c.armed && c'.lastAttempt == c.lastAttempt
                  && r.active == p.active && r.wire == p.wire && r.queue == p.queue)
            && (c.available && !IsValid(draft, c.max) ==>
                  && c'.pending.None? && !c'.armed && c'.lastAttempt == c.lastAttempt
                  && r.active == p.active && r.wire == p.wire && r.queue == p.queue)
            && (c.available && IsValid(draft, c.max) ==>
                  && c'.lastAttempt == draft && c'.armed == !immediate && Pursued(r, id) == draft
                  && (immediate ==> HandedOver(p, r, id, draft.value))
                  && (!immediate ==>
                        c'.pending == draft && r.active == p.active && r.wire == p.wire && r.queue == p.queue))
  {
    hide P.Enqueue;
    var noted := P.WithCard(p, id, P.Noted(p.cards[id], draft, immediate));
    if immediate && P.Wanted(noted.cards[id]) {
      EnqueueHandsOver(noted, id);
    }
  }

  /** The retry button sends again what was remembered, if anything, unless the
      card is locked. */
  lemma RetryMeans(p: P.Page, id: P.Id)
    requires P.AtRest(p) && id in p.cards
    ensures var r := P.Handle(p, P.Retry(id));
            var c, c' := p.cards[id], r.cards[id];
            if c.available && c.lastAttempt.Some?
            then && OnlyCard(p, r, id) && c'.draft == c.lastAttempt && c'.lastAttempt == c.lastAttempt
                 && HandedOver(p, r, id, c.lastAttempt.value) && c'.armed == c.armed
                 && c'.max == c.max && c'.serverValue == c.serverValue && c'.available && c'.listed == c.listed
            else r == p
  {
    hide P.Enqueue;
    var c := p.cards[id];
    if c.available && c.lastAttempt.Some? {
      EnqueueHandsOver(P.WithCard(p, id, c.(draft := c.lastAttempt, pending := c.lastAttempt)), id);
    }
  }

  /** A timer that was armed hands its card's wish to the queue. */
  lemma TimerMeans(p: P.Page, id: P.Id)
    requires P.AtRest(p) && id in p.cards
    ensures var r := P.Handle(p, P.Timer(id));
            var c, c' := p.cards[id], r.cards[id];
            if c.armed
            then && OnlyCard(p, r, id) && !c'.armed && c'.draft == c.draft && c'.available == c.available
                 && c'.max == c.max && c'.serverValue == c.serverValue && c'.listed == c.listed
                 && Pursued(r, id) == Pursued(p, id)
                 && (c.pending.Some? ==> HandedOver(p, r, id, c.pending.value))
                 && (c.pending.None? ==> r.active == p.active && r.wire == p.wire && c'.lastAttempt == c.lastAttempt)
            else r == p
  {
    hide P.Enqueue;
    if p.cards[id].armed {
      EnqueueHandsOver(P.WithCard(p, id, p.cards[id].(armed := false)), id);
    }
  }
}

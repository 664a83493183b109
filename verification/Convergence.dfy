/** When one page is the only writer of its basket, the catalogue stands still
    and no reply is lost, every wish reaches the server unless its commit
    failed, and then the page knows. */
module Convergence {
  import opened Wrappers
  import opened Database
  import opened Autosave
  import P = Page
  import R = Replies

  /** A transaction of somebody else that touches neither this basket nor the
      catalogue. */
  predicate Harmless(step: Step, b: BookingId) {
    match step
    case CustomerWrite(c, _, _, _, _) => c != b
    case AdminWrite(c, _, _, _) => c != b
    case DeleteBooking(c) => c != b
    case CreateItem(_, _) => false
    case UpdateItem(_, _, _) => false
    case DeleteItem(_, _, _) => false
    case _ => true
  }

  predicate Calm(m: Move, b: BookingId) {
    match m
    case Lose => false
    case DecideOrphan(_, _) => false
    case Other(step) => Harmless(step, b)
    case _ => true
  }

  ghost predicate AllCalm(moves: seq<Move>, b: BookingId) {
    forall k :: 0 <= k < |moves| ==> Calm(moves[k], b)
  }

  function Kept(db: Db, b: BookingId, i: ItemId): nat {
    if (b, i) in db.selections then db.selections[(b, i)] else 0
  }

  /** A card agrees with the catalogue, and asks for nothing out of range. */
  predicate Current(c: P.Card, id: ItemId, items: map<ItemId, Item>) {
    && id in items && c.max == items[id].stock && c.available == items[id].visible
    && (c.available && c.lastAttempt.Some? ==> c.lastAttempt.value <= c.max)
    && (c.pending.Some? ==> c.available && c.pending.value <= c.max)
  }

  /** The wish is still to be sent, is on its way, or is in the basket; or a
      reply refused it, showing `refused` as the quantity kept, and the Retry
      button remembers it. */
  predicate Honoured(c: P.Card, wish: Wish, sent: Option<nat>, kept: nat, refused: Option<nat>) {
    match refused
    case None =>
      wish.Want? && c.available ==>
        if c.pending.Some? then c.pending.value == wish.quantity
        else if sent.Some? then sent.value == wish.quantity
        else kept == wish.quantity
    case Some(shown) =>
      && c.pending.None? && sent.None? && kept == shown
      && (wish.Want? && c.available ==> c.lastAttempt == Some(wish.quantity))
  }

  function SentFor(p: P.Page, id: ItemId): Option<nat> {
    if p.active.Some? && p.active.value.id == id then Some(p.active.value.quantity) else None
  }

  function WishFor(wishes: map<ItemId, Wish>, id: ItemId): Wish {
    if id in wishes then wishes[id] else Unspoken
  }

  function RefusedFor(refused: map<ItemId, nat>, id: ItemId): Option<nat> {
    if id in refused then Some(refused[id]) else None
  }

  /** The page's side of the invariant, for any catalogue, basket, wishes and
      refusals. */
  ghost predicate Faithful(
    p: P.Page, items: map<ItemId, Item>, kept: ItemId -> nat, wishes: map<ItemId, Wish>,
    refused: map<ItemId, nat>)
  {
    && P.Known(p)
    && (forall id :: id in p.cards ==> Current(p.cards[id], id, items))
    && (forall id :: id in p.cards ==>
          Honoured(p.cards[id], WishFor(wishes, id), SentFor(p, id), kept(id), RefusedFor(refused, id)))
    && (p.active.Some? ==>
          p.cards[p.active.value.id].available && p.active.value.quantity <= p.cards[p.active.value.id].max)
  }

  // ------------------------------------------------------------------- refusals

  /** The card whose wish a user's event replaces. */
  function Renewed(p: P.Page, e: P.Event): set<ItemId> {
    match e
    case Edit(id, _, _) => if id in p.cards && p.cards[id].available then {id} else {}
    case Retry(id) =>
      if id in p.cards && p.cards[id].available && p.cards[id].lastAttempt.Some? then {id} else {}
    case _ => {}
  }

  /** The quantity a reply shows for a card. */
  function Shown(rows: map<ItemId, Row>, id: ItemId): nat {
    if id in rows then rows[id].quantity else 0
  }

  /** A failed commit, or numbers beyond what the server parses. */
  predicate Refuses(code: Code) {
    code.SaveFailed? || code.Malformed?
  }

  /** A delivered refusal stands for its card until its user speaks again. */
  function RefusedAfter(s: System, refused: map<ItemId, nat>, m: Move): map<ItemId, nat> {
    match m
    case User(e) => refused - Renewed(s.page, e)
    case Deliver =>
      if s.phase.RowsRead? && Refuses(s.phase.code) && s.page.active.Some?
      then refused[s.page.active.value.id := Shown(s.phase.rows, s.page.active.value.id)]
      else refused
    case _ => refused
  }

  /** The cards that a refusal has answered since their last edit or retry,
      with the quantity that reply showed. */
  function Refusals(s: System, moves: seq<Move>): map<ItemId, nat>
    requires P.Known(s.page)
  {
    if moves == [] then map[]
    else
      var init := moves[..|moves| - 1];
      RefusedAfter(Play(s, init), Refusals(s, init), moves[|moves| - 1])
  }

  function KeptBy(db: Db, b: BookingId): ItemId -> nat {
    i => Kept(db, b, i)
  }

  /** Once decided, the request was saved and the basket holds its quantity, or
      its commit failed. */
  ghost predicate Undisturbed(s: System) {
    match s.phase
    case Idle => true
    case Undecided => true
    case Decided(code) => Settled(s, code)
    case RevisionRead(code, _) => Settled(s, code)
    case RowsRead(code, _, rows) => Settled(s, code) && rows == Rows(s.db.items, Basket(s.db, s.b))
  }

  predicate Settled(s: System, code: Code) {
    Refuses(code) || (code.Saved? && Written(s))
  }

  predicate Written(s: System) {
    s.page.active.Some? && Kept(s.db, s.b, s.page.active.value.id) == s.page.active.value.quantity
  }

  ghost predicate OnTrack(s: System, refused: map<ItemId, nat>) {
    && Accounted(s) && s.foreign == s.lost == 0
    && Faithful(s.page, s.db.items, KeptBy(s.db, s.b), s.wishes, refused)
    && Undisturbed(s)
  }

  // ------------------------------------------------------------------ page events

  lemma PoppedIsFaithful(
    p: P.Page, items: map<ItemId, Item>, kept: ItemId -> nat, wishes: map<ItemId, Wish>,
    refused: map<ItemId, nat>)
    requires Faithful(p, items, kept, wishes, refused) && p.active.None? && p.queue != []
    ensures Faithful(P.Popped(p), items, kept, wishes, refused)
    ensures p.cards[p.queue[0]].pending.Some? ==> Faithful(P.Sent(p), items, kept, wishes, refused)
  {
  }

  lemma {:induction false} DrainIsFaithful(
    p: P.Page, items: map<ItemId, Item>, kept: ItemId -> nat, wishes: map<ItemId, Wish>,
    refused: map<ItemId, nat>)
    requires P.Known(p) && Faithful(p, items, kept, wishes, refused)
    ensures Faithful(P.Drain(p), items, kept, wishes, refused)
    decreases |p.queue|
  {
    hide Faithful, P.Popped, P.Sent;
    if p.active.None? && p.queue != [] {
      PoppedIsFaithful(p, items, kept, wishes, refused);
      if p.cards[p.queue[0]].pending.None? {
        PoppedShrinks(p);
        DrainIsFaithful(P.Popped(p), items, kept, wishes, refused);
      }
    }
  }

  lemma PoppedShrinks(p: P.Page)
    requires P.Known(p) && p.queue != []
    ensures |P.Popped(p).queue| < |p.queue|
  {
  }

  lemma EnqueueIsFaithful(
    p: P.Page, id: ItemId, items: map<ItemId, Item>, kept: ItemId -> nat, wishes: map<ItemId, Wish>,
    refused: map<ItemId, nat>)
    requires Faithful(p, items, kept, wishes, refused) && id in p.cards
    ensures Faithful(P.Enqueue(p, id), items, kept, wishes, refused)
  {
    hide P.Drain;
    DrainIsFaithful(
      if p.cards[id].queued then p
      else P.WithCard(p, id, p.cards[id].(queued := true)).(queue := p.queue + [id]), items, kept, wishes, refused);
  }

  /** An edit becomes its card's wish, and the card its keeper. */
  lemma EditIsFaithful(
    s: System, id: ItemId, draft: Option<nat>, immediate: bool, items: map<ItemId, Item>, kept: ItemId -> nat,
    refused: map<ItemId, nat>)
    requires Faithful(s.page, items, kept, s.wishes, refused) && id in s.page.cards
    ensures Faithful(P.Schedule(s.page, id, draft, immediate), items, kept,
                     WishAfter(s, P.Edit(id, draft, immediate)),
                     refused - Renewed(s.page, P.Edit(id, draft, immediate)))
  {
    hide P.Enqueue, Faithful, P.Noted, WishAfter, Renewed;
    NotedIsFaithful(s, id, draft, immediate, items, kept, refused);
    EnqueueIsFaithful(P.WithCard(s.page, id, P.Noted(s.page.cards[id], draft, immediate)), id, items, kept,
                      WishAfter(s, P.Edit(id, draft, immediate)),
                      refused - Renewed(s.page, P.Edit(id, draft, immediate)));
  }

  lemma NotedIsFaithful(
    s: System, id: ItemId, draft: Option<nat>, immediate: bool, items: map<ItemId, Item>, kept: ItemId -> nat,
    refused: map<ItemId, nat>)
    requires Faithful(s.page, items, kept, s.wishes, refused) && id in s.page.cards
    ensures Faithful(P.WithCard(s.page, id, P.Noted(s.page.cards[id], draft, immediate)), items, kept,
                     WishAfter(s, P.Edit(id, draft, immediate)),
                     refused - Renewed(s.page, P.Edit(id, draft, immediate)))
  {
    NoteKeepsCard(s.page.cards[id], id, draft, immediate, items, WishFor(s.wishes, id), SentFor(s.page, id), kept(id),
                  RefusedFor(refused, id));
    hide P.Noted, P.Wanted, P.ParsedQuantity, Current, Honoured;
    var e := P.Edit(id, draft, immediate);
    var p' := P.WithCard(s.page, id, P.Noted(s.page.cards[id], draft, immediate));
    forall j | j in s.page.cards && j != id
      ensures SentFor(p', j) == SentFor(s.page, j) && WishFor(WishAfter(s, e), j) == WishFor(s.wishes, j)
      ensures RefusedFor(refused - Renewed(s.page, e), j) == RefusedFor(refused, j)
    {
    }
  }

  lemma NoteKeepsCard(
    c: P.Card, id: ItemId, draft: Option<nat>, immediate: bool, items: map<ItemId, Item>,
    wish: Wish, sent: Option<nat>, kept: nat, refused: Option<nat>)
    requires Current(c, id, items) && Honoured(c, wish, sent, kept, refused)
    ensures var noted := P.Noted(c, draft, immediate);
            && Current(noted, id, items) && noted.available == c.available && noted.max == c.max
            && Honoured(noted, if !c.available then wish
                               else if P.Wanted(noted) then Want(P.ParsedQuantity(noted).value)
                               else Invalid, sent, kept, if c.available then None else refused)
  {
  }

  lemma RetryIsFaithful(
    s: System, id: ItemId, items: map<ItemId, Item>, kept: ItemId -> nat, refused: map<ItemId, nat>)
    requires Faithful(s.page, items, kept, s.wishes, refused) && id in s.page.cards
    ensures Faithful(P.RetrySave(s.page, id), items, kept, WishAfter(s, P.Retry(id)),
                     refused - Renewed(s.page, P.Retry(id)))
  {
    hide P.Enqueue;
    var c := s.page.cards[id];
    if c.lastAttempt.Some? && c.available {
      var again := P.WithCard(s.page, id, c.(draft := c.lastAttempt, pending := c.lastAttempt));
      EnqueueIsFaithful(again, id, items, kept, WishAfter(s, P.Retry(id)), refused - {id});
    } else {
      assert refused - {} == refused;
    }
  }

  lemma FireIsFaithful(
    p: P.Page, id: ItemId, items: map<ItemId, Item>, kept: ItemId -> nat, wishes: map<ItemId, Wish>,
    refused: map<ItemId, nat>)
    requires Faithful(p, items, kept, wishes, refused) && id in p.cards
    ensures Faithful(P.Fire(p, id), items, kept, wishes, refused)
  {
    hide P.Enqueue;
    EnqueueIsFaithful(P.WithCard(p, id, p.cards[id].(armed := false)), id, items, kept, wishes, refused);
  }

  lemma RefreshIsCurrent(c: P.Card, id: ItemId, items: map<ItemId, Item>, row: Row, keep: bool)
    requires Current(c, id, items) && row.stock == items[id].stock && row.available == items[id].visible
    ensures var r := P.Refresh(c, row, keep);
            && Current(r, id, items) && r.available == c.available && r.pending == c.pending && r.max == c.max
            && (c.available ==> r.lastAttempt == c.lastAttempt)
  {
  }

  /** The rows of an undisturbed reply change no card's standing. */
  lemma SnapshotIsFaithful(
    p: P.Page, payload: P.Payload, preserve: set<ItemId>, db: Db, b: BookingId, wishes: map<ItemId, Wish>,
    refused: map<ItemId, nat>)
    requires Faithful(p, db.items, KeptBy(db, b), wishes, refused) && payload.rows == Rows(db.items, Basket(db, b))
    ensures var q := P.ApplySnapshot(p, payload, preserve);
            && Faithful(q, db.items, KeptBy(db, b), wishes, refused)
            && q.active == p.active && q.queue == p.queue && q.cards.Keys == p.cards.Keys
            && (forall id :: id in p.cards ==> q.cards[id].pending == p.cards[id].pending)
            && (forall id :: id in p.cards ==> q.cards[id].available == p.cards[id].available)
  {
    hide P.Refresh, P.ParsedQuantity, Basket, Current, Honoured;
    var q := P.ApplySnapshot(p, payload, preserve);
    forall id | id in p.cards
      ensures SameStanding(p.cards[id], q.cards[id]) && Current(q.cards[id], id, db.items)
      ensures Honoured(q.cards[id], WishFor(wishes, id), SentFor(q, id), KeptBy(db, b)(id), RefusedFor(refused, id))
    {
      SnapshotOfCard(p.cards[id], id, db, b, payload.rows, id in preserve);
      SameStandingHonoured(p.cards[id], q.cards[id], WishFor(wishes, id), SentFor(p, id), KeptBy(db, b)(id),
                           RefusedFor(refused, id));
    }
  }

  /** Two cards that ask for, and may ask for, the same. */
  predicate SameStanding(c: P.Card, c': P.Card) {
    && c'.pending == c.pending && c'.available == c.available && c'.max == c.max
    && (c.available ==> c'.lastAttempt == c.lastAttempt)
  }

  lemma SnapshotOfCard(c: P.Card, id: ItemId, db: Db, b: BookingId, rows: map<ItemId, Row>, keep: bool)
    requires Current(c, id, db.items) && rows == Rows(db.items, Basket(db, b))
    ensures var c' := if c.listed && id in rows then P.Refresh(c, rows[id], keep) else c;
            SameStanding(c, c') && Current(c', id, db.items)
  {
    if c.listed && id in rows {
      RefreshIsCurrent(c, id, db.items, rows[id], keep);
    }
  }

  lemma SameStandingHonoured(
    c: P.Card, c': P.Card, wish: Wish, sent: Option<nat>, kept: nat, refused: Option<nat>)
    requires SameStanding(c, c') && Honoured(c, wish, sent, kept, refused)
    ensures Honoured(c', wish, sent, kept, refused)
  {
  }

  /** A saved reply releases the page with every wish still honoured: the card
      it answers either has a newer wish pending or finds its wish in the basket. */
  lemma SavedIsFaithful(s: System, payload: P.Payload, refused: map<ItemId, nat>)
    requires Faithful(s.page, s.db.items, KeptBy(s.db, s.b), s.wishes, refused)
    requires s.page.active.Some? && Integrity(s.db)
    requires Written(s) && payload.rows == Rows(s.db.items, Basket(s.db, s.b))
    ensures Faithful(P.HandleSaved(s.page, s.page.active.value.id, payload).(active := None),
                     s.db.items, KeptBy(s.db, s.b), s.wishes, refused)
  {
    hide Integrity, Rows, Basket, KeptBy, P.ParsedQuantity, P.ApplySnapshot, P.PendingIds, P.Enqueue, Honoured, Current;
    var p, id, kept := s.page, s.page.active.value.id, KeptBy(s.db, s.b);
    var invalid := P.ParsedQuantity(p.cards[id]).None?;
    var preserve := P.PendingIds(p) + (if invalid then {id} else {});
    SnapshotIsFaithful(p, payload, preserve, s.db, s.b, s.wishes, refused);
    var q := P.ApplySnapshot(p, payload, preserve);
    ReleaseIsFaithful(q, s.db.items, kept, s.wishes, refused) by { KeptAtActive(s); }
    assert P.Known(q) && id in q.cards;
    InFlightIsNotRefused(p, s.db.items, kept, s.wishes, refused);
    hide Faithful;
    if !invalid {
      var persisted := if id in payload.rows then payload.rows[id].quantity else 0;
      PersistedIsKept(s.db, s.b, id, payload);
      var c := q.cards[id];
      if c.pending.Some? && c.pending.value != persisted {
        PushIsFaithful(q, id, s.db.items, kept, s.wishes, refused);
      } else {
        var listed := c.listed && !(p.basketOnly && persisted == 0);
        SettledIsFaithful(q, id, persisted, listed, s.db.items, kept, s.wishes, refused);
      }
    }
  }

  lemma InFlightIsNotRefused(
    p: P.Page, items: map<ItemId, Item>, kept: ItemId -> nat, wishes: map<ItemId, Wish>,
    refused: map<ItemId, nat>)
    requires Faithful(p, items, kept, wishes, refused) && p.active.Some?
    ensures p.active.value.id !in refused
  {
    var id := p.active.value.id;
    assert Honoured(p.cards[id], WishFor(wishes, id), SentFor(p, id), kept(id), RefusedFor(refused, id));
  }

  lemma KeptAtActive(s: System)
    requires Written(s)
    ensures KeptBy(s.db, s.b)(s.page.active.value.id) == s.page.active.value.quantity
  {
  }

  lemma PersistedIsKept(db: Db, b: BookingId, id: ItemId, payload: P.Payload)
    requires Integrity(db) && payload.rows == Rows(db.items, Basket(db, b))
    ensures (if id in payload.rows then payload.rows[id].quantity else 0) == KeptBy(db, b)(id)
  {
  }

  lemma SettledIsFaithful(
    q: P.Page, id: ItemId, persisted: nat, listed: bool, items: map<ItemId, Item>, kept: ItemId -> nat,
    wishes: map<ItemId, Wish>, refused: map<ItemId, nat>)
    requires Faithful(q.(active := None), items, kept, wishes, refused) && id in q.cards && P.Known(q)
    requires persisted == kept(id) && id !in refused
    requires q.cards[id].pending.Some? ==> q.cards[id].pending.value == persisted
    ensures var c := q.cards[id].(pending := None, draft := Some(persisted), lastAttempt := None, listed := listed);
            Faithful(P.WithCard(q, id, c).(active := None), items, kept, wishes, refused)
  {
  }

  lemma ReleaseIsFaithful(
    q: P.Page, items: map<ItemId, Item>, kept: ItemId -> nat, wishes: map<ItemId, Wish>,
    refused: map<ItemId, nat>)
    requires Faithful(q, items, kept, wishes, refused) && q.active.Some?
    requires kept(q.active.value.id) == q.active.value.quantity
    ensures Faithful(q.(active := None), items, kept, wishes, refused)
  {
  }

  lemma PushIsFaithful(
    p: P.Page, id: ItemId, items: map<ItemId, Item>, kept: ItemId -> nat, wishes: map<ItemId, Wish>,
    refused: map<ItemId, nat>)
    requires P.Known(p) && p.active.Some? && id in p.cards
    requires Faithful(p.(active := None), items, kept, wishes, refused)
    ensures Faithful(P.Enqueue(p, id).(active := None), items, kept, wishes, refused)
  {
  }

  /** What a refusal leaves of its card. */
  function Refused(c: P.Card, sent: nat): P.Card {
    c.(pending := None, lastAttempt := if c.pending.Some? then c.pending else Some(sent))
  }

  /** A failed commit drops the wish of the card it answers, newer edits
      included, and remembers it for the Retry button. */
  lemma RefusedCardIsFaithful(
    p: P.Page, items: map<ItemId, Item>, kept: ItemId -> nat, wishes: map<ItemId, Wish>,
    refused: map<ItemId, nat>)
    requires Faithful(p, items, kept, wishes, refused) && p.active.Some?
    ensures var id, sent := p.active.value.id, p.active.value.quantity;
            Faithful(P.WithCard(p, id, Refused(p.cards[id], sent)).(active := None), items, kept, wishes,
                     refused[id := kept(id)])
  {
    InFlightIsNotRefused(p, items, kept, wishes, refused);
    var id, sent := p.active.value.id, p.active.value.quantity;
    RefusedCard(p.cards[id], id, items, WishFor(wishes, id), sent, kept(id));
    hide Current, Honoured;
    var q, refused' := P.WithCard(p, id, Refused(p.cards[id], sent)).(active := None), refused[id := kept(id)];
    forall j | j in p.cards && j != id
      ensures SentFor(q, j) == SentFor(p, j) && RefusedFor(refused', j) == RefusedFor(refused, j)
    {
    }
  }

  lemma RefusedCard(c: P.Card, id: ItemId, items: map<ItemId, Item>, wish: Wish, sent: nat, kept: nat)
    requires Current(c, id, items) && Honoured(c, wish, Some(sent), kept, None) && c.available && sent <= c.max
    ensures Current(Refused(c, sent), id, items) && Honoured(Refused(c, sent), wish, None, kept, Some(kept))
  {
  }

  /** On a standing catalogue the handler's order of snapshot and bookkeeping
      makes no difference. */
  lemma RefusalIsSnapshotOfRefused(p: P.Page, payload: P.Payload, db: Db, b: BookingId)
    requires P.Known(p) && p.active.Some? && payload.rows == Rows(db.items, Basket(db, b))
    requires p.cards[p.active.value.id].available && Current(p.cards[p.active.value.id], p.active.value.id, db.items)
    ensures var id, sent := p.active.value.id, p.active.value.quantity;
            var cleared := P.WithCard(p, id, p.cards[id].(pending := None));
            P.HandleRefused(p, id, sent, Some(payload)).(active := None) ==
            P.ApplySnapshot(P.WithCard(p, id, Refused(p.cards[id], sent)).(active := None), payload,
                            {id} + P.PendingIds(cleared))
  {
    var id, sent := p.active.value.id, p.active.value.quantity;
    var c := p.cards[id].(pending := None);
    var last := if p.cards[id].pending.Some? then p.cards[id].pending else Some(sent);
    assert id in payload.rows ==> payload.rows[id].available by { AvailableRow(p.cards[id], id, db, b, payload.rows); }
    hide P.PendingIds, P.Refreshed, Current, Rows;
    RefreshedCommutes(p.cards, payload.rows, {id} + P.PendingIds(P.WithCard(p, id, c)), id, c, last);
  }

  lemma RefreshedCommutes(
    cards: map<ItemId, P.Card>, rows: map<ItemId, Row>, preserve: set<ItemId>, id: ItemId, c: P.Card, last: Option<nat>)
    requires id in cards && id in preserve && c.available && (id in rows ==> rows[id].available)
    ensures var one := P.Refreshed(cards[id := c], rows, preserve);
            && id in one && one[id].available
            && one[id := one[id].(lastAttempt := last)] ==
               P.Refreshed(cards[id := c.(lastAttempt := last)], rows, preserve)
  {
    if id in rows {
      RefreshCommutes(c, rows[id], last);
    }
    hide P.Refresh;
  }

  lemma AvailableRow(c: P.Card, id: ItemId, db: Db, b: BookingId, rows: map<ItemId, Row>)
    requires Current(c, id, db.items) && c.available && rows == Rows(db.items, Basket(db, b)) && id in rows
    ensures rows[id].available
  {
  }

  lemma RefreshCommutes(c: P.Card, row: Row, last: Option<nat>)
    requires c.available && row.available
    ensures P.Refresh(c.(lastAttempt := last), row, true) == P.Refresh(c, row, true).(lastAttempt := last)
    ensures P.Refresh(c, row, true).available
  {
  }

  lemma RefusalIsFaithful(s: System, payload: P.Payload, refused: map<ItemId, nat>)
    requires Faithful(s.page, s.db.items, KeptBy(s.db, s.b), s.wishes, refused)
    requires s.page.active.Some? && Integrity(s.db)
    requires payload.rows == Rows(s.db.items, Basket(s.db, s.b))
    ensures var id := s.page.active.value.id;
            var r := P.HandleRefused(s.page, id, s.page.active.value.quantity, Some(payload)).(active := None);
            P.Known(r) &&
            Faithful(r, s.db.items, KeptBy(s.db, s.b), s.wishes, refused[id := Shown(payload.rows, id)])
  {
    hide Honoured, Integrity, Rows, Basket, KeptBy, P.PendingIds, P.ApplySnapshot, P.HandleRefused, Refused;
    var p, id, kept := s.page, s.page.active.value.id, KeptBy(s.db, s.b);
    PersistedIsKept(s.db, s.b, id, payload);
    RefusedCardIsFaithful(p, s.db.items, kept, s.wishes, refused);
    RefusalIsSnapshotOfRefused(p, payload, s.db, s.b);
    SnapshotIsFaithful(
      P.WithCard(p, id, Refused(p.cards[id], p.active.value.quantity)).(active := None), payload,
      {id} + P.PendingIds(P.WithCard(p, id, p.cards[id].(pending := None))), s.db, s.b, s.wishes,
      refused[id := kept(id)]);
  }

  lemma ReplyIsFaithful(s: System, code: Code, payload: P.Payload, refused: map<ItemId, nat>)
    requires Faithful(s.page, s.db.items, KeptBy(s.db, s.b), s.wishes, refused)
    requires P.Known(s.page) && s.page.active.Some? && Integrity(s.db)
    requires Settled(s, code) && payload.rows == Rows(s.db.items, Basket(s.db, s.b))
    ensures var id := s.page.active.value.id;
            Faithful(P.Handle(s.page, P.Receive(P.Parsed(code, payload))), s.db.items, KeptBy(s.db, s.b), s.wishes,
                     if Refuses(code) then refused[id := Shown(payload.rows, id)] else refused)
  {
    hide P.HandleSaved, P.HandleRefused, P.Drain, Faithful, Rows, Basket, Written, Shown;
    var id := s.page.active.value.id;
    if Refuses(code) {
      RefusalIsFaithful(s, payload, refused);
      DrainIsFaithful(P.HandleRefused(s.page, id, s.page.active.value.quantity, Some(payload)).(active := None),
                      s.db.items, KeptBy(s.db, s.b), s.wishes, refused[id := Shown(payload.rows, id)]);
    } else {
      SavedIsFaithful(s, payload, refused);
      DrainIsFaithful(P.HandleSaved(s.page, id, payload).(active := None),
                      s.db.items, KeptBy(s.db, s.b), s.wishes, refused);
    }
  }

  // ------------------------------------------------------------------- the system

  lemma HarmlessStepKeepsTrack(s: System, step: Step, refused: map<ItemId, nat>)
    requires OnTrack(s, refused) && Harmless(step, s.b)
    ensures OnTrack(Next(s, Other(step)), refused)
  {
    hide Apply, P.Handle, Accepts, Faithful, Undisturbed, Next, Accounted;
    KnownWhenAccounted(s);
    var after := Next(s, Other(step));
    OtherStepKeepsAccount(s, step);
    OtherMovesOnlyTheDatabase(s, step);
    HarmlessStepKeepsBasket(s.db, step, s.b);
    FaithfulToSameBasket(s.page, s.db.items, KeptBy(s.db, s.b), KeptBy(after.db, s.b), s.wishes, refused);
    UndisturbedBySameBasket(s, after);
  }

  lemma OtherMovesOnlyTheDatabase(s: System, step: Step)
    requires P.Known(s.page)
    ensures Next(s, Other(step)) ==
            s.(db := Apply(s.db, step), foreign := s.foreign + One(Accepts(s.db, step, s.b)))
  {
  }

  lemma DeliveryMovesOnlyThePage(s: System)
    requires P.Known(s.page) && s.phase.RowsRead?
    ensures Next(s, Deliver) ==
            PageMoves(s, P.Receive(P.Parsed(s.phase.code, P.Payload(s.phase.revision, s.phase.rows))))
  {
  }

  lemma UndisturbedBySameBasket(s: System, after: System)
    requires Undisturbed(s) && after.b == s.b && after.page == s.page && after.phase == s.phase
    requires after.db.items == s.db.items && Basket(after.db, s.b) == Basket(s.db, s.b)
    requires forall i :: Kept(after.db, s.b, i) == Kept(s.db, s.b, i)
    ensures Undisturbed(after)
  {
    hide Kept, Basket, Rows;
  }

  lemma FaithfulToSameBasket(
    p: P.Page, items: map<ItemId, Item>, kept: ItemId -> nat, kept': ItemId -> nat,
    wishes: map<ItemId, Wish>, refused: map<ItemId, nat>)
    requires Faithful(p, items, kept, wishes, refused) && forall i :: kept(i) == kept'(i)
    ensures Faithful(p, items, kept', wishes, refused)
  {
    hide Current, Honoured;
  }

  lemma HarmlessStepKeepsRows(db: Db, step: Step, b: BookingId)
    requires Integrity(db) && b in db.bookings && Harmless(step, b)
    ensures var after := Apply(db, step);
            && after.items == db.items && !Accepts(db, step, b)
            && (forall k: (nat, nat) :: k.0 == b ==> (k in after.selections <==> k in db.selections))
            && (forall k: (nat, nat) :: k.0 == b && k in db.selections ==> after.selections[k] == db.selections[k])
  {
    hide Integrity, Decide;
  }

  lemma HarmlessStepKeepsBasket(db: Db, step: Step, b: BookingId)
    requires Integrity(db) && b in db.bookings && Harmless(step, b)
    ensures var after := Apply(db, step);
            && after.items == db.items && Basket(after, b) == Basket(db, b) && !Accepts(db, step, b)
            && (forall i :: Kept(after, b, i) == Kept(db, b, i))
  {
    HarmlessStepKeepsRows(db, step, b);
    hide Apply, Accepts, Harmless, Integrity;
    var after := Apply(db, step);
    assert forall i :: ((b, i) in after.selections <==> (b, i) in db.selections);
  }

  /** The server can only say that it saved, or refuse and change nothing. */
  lemma DecisionIsSaved(s: System, fault: Fault, refused: map<ItemId, nat>)
    requires OnTrack(s, refused) && s.phase.Undecided? && s.page.active.Some?
    ensures var code := CodeOf(s.db, s.b, s.page.active.value, fault);
            && (code.Saved? <==> Parses(s.page.active.value) && fault.NoFault?)
            && (!code.Saved? ==> Refuses(code) && Served(s.db, s.b, s.page.active.value, fault) == s.db)
  {
    hide P.AtRest, Integrity;
    var r := s.page.active.value;
    assert Current(s.page.cards[r.id], r.id, s.db.items);
  }

  lemma DecisionKeepsTrack(s: System, fault: Fault, refused: map<ItemId, nat>)
    requires OnTrack(s, refused)
    ensures OnTrack(Next(s, DecideRequest(fault)), refused)
  {
    if s.phase.Undecided? && s.page.active.Some? {
      DecisionKeepsAccount(s, DecideRequest(fault));
      DecisionIsSaved(s, fault, refused);
      if CodeOf(s.db, s.b, s.page.active.value, fault).Saved? {
        WriteIsFaithful(s, refused);
      }
      hide Faithful, Accounted, Apply, P.Handle;
    }
  }

  lemma WriteIsFaithful(s: System, refused: map<ItemId, nat>)
    requires OnTrack(s, refused) && s.page.active.Some?
    requires CodeOf(s.db, s.b, s.page.active.value, NoFault) == Saved
    ensures var after := Served(s.db, s.b, s.page.active.value, NoFault);
            && after.items == s.db.items
            && Kept(after, s.b, s.page.active.value.id) == s.page.active.value.quantity
            && Faithful(s.page, after.items, KeptBy(after, s.b), s.wishes, refused)
  {
    hide Accounted, Undisturbed, Current, P.Known;
    var r := s.page.active.value;
    var after := Served(s.db, s.b, r, NoFault);
    InFlightIsNotRefused(s.page, s.db.items, KeptBy(s.db, s.b), s.wishes, refused);
    assert forall i :: i != r.id ==> Kept(after, s.b, i) == Kept(s.db, s.b, i);
  }

  lemma KnownWhenAccounted(s: System)
    requires Accounted(s)
    ensures P.Known(s.page) && Integrity(s.db) && s.b in s.db.bookings
  {
  }

  lemma DeliveryKeepsTrack(s: System, refused: map<ItemId, nat>)
    requires OnTrack(s, refused)
    ensures OnTrack(Next(s, Deliver), RefusedAfter(s, refused, Deliver))
  {
    hide Faithful, P.Handle, Rows, Basket, Kept, Accounted, Next, Shown;
    KnownWhenAccounted(s);
    PageKeepsAccount(s, Deliver);
    if s.phase.RowsRead? {
      DeliveryMovesOnlyThePage(s);
      assert s.page.active.Some? by { ReadReplyHasRequest(s); }
      ReplyIsFaithful(s, s.phase.code, P.Payload(s.phase.revision, s.phase.rows), refused);
    } else {
      assert Next(s, Deliver) == s by { NothingToDeliver(s); }
    }
  }

  lemma ReadReplyHasRequest(s: System)
    requires Accounted(s) && s.phase.RowsRead?
    ensures s.page.active.Some?
  {
  }

  lemma NothingToDeliver(s: System)
    requires P.Known(s.page) && !s.phase.RowsRead?
    ensures Next(s, Deliver) == s
  {
  }

  lemma LocalMoveKeepsTrack(s: System, m: Move, refused: map<ItemId, nat>)
    requires OnTrack(s, refused) && (m.User? || m.TimerFires?)
    ensures OnTrack(Next(s, m), RefusedAfter(s, refused, m))
  {
    hide Faithful, Accounted, P.Handle, WishAfter, Renewed, KeptBy, Rows, Basket;
    KnownWhenAccounted(s);
    PageKeepsAccount(s, m);
    var e := if m.User? then m.event else P.Timer(m.id);
    if !e.Receive? {
      LocalEventKeepsRevision(s.page, e);
      LocalEventIsFaithful(s, e, refused);
    }
    OnlyUsersWish(s, e);
    assert refused - {} == refused;
  }

  lemma OnlyUsersWish(s: System, e: P.Event)
    ensures !P.UserEvent(e) ==> Renewed(s.page, e) == {} && WishAfter(s, e) == s.wishes
  {
  }

  lemma LocalEventIsFaithful(s: System, e: P.Event, refused: map<ItemId, nat>)
    requires Faithful(s.page, s.db.items, KeptBy(s.db, s.b), s.wishes, refused) && P.Known(s.page) && !e.Receive?
    ensures Faithful(P.Handle(s.page, e), s.db.items, KeptBy(s.db, s.b), WishAfter(s, e),
                     refused - Renewed(s.page, e))
  {
    hide Faithful, P.Schedule, P.RetrySave, P.Fire, P.Noted;
    assert refused - {} == refused;
    match e
    case Edit(id, draft, immediate) =>
      if id in s.page.cards {
        EditIsFaithful(s, id, draft, immediate, s.db.items, KeptBy(s.db, s.b), refused);
      }
    case Retry(id) =>
      if id in s.page.cards {
        RetryIsFaithful(s, id, s.db.items, KeptBy(s.db, s.b), refused);
      }
    case Timer(id) =>
      if id in s.page.cards {
        FireIsFaithful(s.page, id, s.db.items, KeptBy(s.db, s.b), s.wishes, refused);
      }
    case Receive(_) =>
  }

  lemma CalmMoveKeepsTrack(s: System, m: Move, refused: map<ItemId, nat>)
    requires OnTrack(s, refused) && Calm(m, s.b)
    ensures OnTrack(Next(s, m), RefusedAfter(s, refused, m)) && Next(s, m).b == s.b
  {
    hide OnTrack, P.Handle;
    match m
    case Other(step) => HarmlessStepKeepsTrack(s, step, refused);
    case DecideRequest(fault) => DecisionKeepsTrack(s, fault, refused);
    case Deliver => DeliveryKeepsTrack(s, refused);
    case User(_) => LocalMoveKeepsTrack(s, m, refused);
    case TimerFires(_) => LocalMoveKeepsTrack(s, m, refused);
    case ReadReplyRevision => ReadKeepsTrack(s, m, refused);
    case ReadReplyRows => ReadKeepsTrack(s, m, refused);
    case Lose =>
    case DecideOrphan(_, _) =>
  }

  lemma ReadKeepsTrack(s: System, m: Move, refused: map<ItemId, nat>)
    requires OnTrack(s, refused) && (m.ReadReplyRevision? || m.ReadReplyRows?)
    ensures OnTrack(Next(s, m), refused)
  {
    hide Accounted, Faithful, P.Handle, Basket, Rows, KeptBy, Integrity;
    ReadKeepsAccount(s, m);
  }

  /** A page opened on the current catalogue, with nothing edited yet. */
  ghost predicate FreshPage(s: System) {
    && Opened(s) && s.wishes == map[]
    && forall id :: id in s.page.cards ==>
         && Current(s.page.cards[id], id, s.db.items)
         && s.page.cards[id].pending.None?
  }

  lemma {:induction false} CalmRunStaysOnTrack(s: System, moves: seq<Move>)
    requires FreshPage(s)
    requires AllCalm(moves, s.b)
    ensures OnTrack(Play(s, moves), Refusals(s, moves)) && Play(s, moves).b == s.b
  {
    if moves != [] {
      var init, last := moves[..|moves| - 1], moves[|moves| - 1];
      CalmRunStaysOnTrack(s, init);
      CalmMoveKeepsTrack(Play(s, init), last, Refusals(s, init));
    }
  }

  /** Nothing in flight and no timer running. */
  predicate Quiescent(p: P.Page) {
    p.active.None? && forall id :: id in p.cards ==> !p.cards[id].armed
  }

  /** In every interleaving of edits, timers, replies, failing commits and other
      people's harmless transactions, no request is rejected as stale. Once the
      page is quiet, the basket holds the last valid edit of an unlocked card
      unless a refusal has answered the card since; a card so refused keeps what
      that reply showed, and the Retry button its wish. */
  lemma PageConverges(s: System, moves: seq<Move>)
    requires FreshPage(s)
    requires AllCalm(moves, s.b)
    ensures var end, refused := Play(s, moves), Refusals(s, moves);
            && end.stale == 0
            && (Quiescent(end.page) ==>
                  forall id :: id in end.page.cards && end.page.cards[id].available && WishFor(end.wishes, id).Want? ==>
                    var wish, kept := WishFor(end.wishes, id).quantity, Kept(end.db, s.b, id);
                    && (kept == wish <==> id !in refused || refused[id] == wish)
                    && (id in refused ==> kept == refused[id] && end.page.cards[id].lastAttempt == Some(wish)))
  {
    CalmRunStaysOnTrack(s, moves);
    var end, refused := Play(s, moves), Refusals(s, moves);
    if Quiescent(end.page) {
      P.QuietPageHasNothingUnsent(end.page);
      forall id | id in end.page.cards && end.page.cards[id].available && WishFor(end.wishes, id).Want?
        ensures var wish, kept := WishFor(end.wishes, id).quantity, Kept(end.db, s.b, id);
                && (kept == wish <==> id !in refused || refused[id] == wish)
                && (id in refused ==> kept == refused[id] && end.page.cards[id].lastAttempt == Some(wish))
      {
        assert id !in P.Unsent(end.page);
        assert Honoured(end.page.cards[id], WishFor(end.wishes, id), SentFor(end.page, id), KeptBy(end.db, s.b)(id),
                        RefusedFor(refused, id));
      }
    }
  }

  // ---------------------------------------------------------------- from page load

  /** A page rendered from the database, listing any of the rows (a search or
      the basket-only view leaves some out), before its first event. */
  function OpenedOn(b: BookingId, db: Db, listed: set<ItemId>, basketOnly: bool): System
    requires b in db.bookings
  {
    var rows := map i | i in Rows(db.items, Basket(db, b)) && i in listed :: Rows(db.items, Basket(db, b))[i];
    System(b, db, P.Loaded(rows, db.bookings[b].revision, basketOnly), Idle, [], map[], 0, 0, 0)
  }

  /** So every run from page load converges. */
  lemma LoadedPageIsFresh(b: BookingId, db: Db, listed: set<ItemId>, basketOnly: bool)
    requires Integrity(db) && b in db.bookings
    ensures FreshPage(OpenedOn(b, db, listed, basketOnly))
  {
    var rows := map i | i in Rows(db.items, Basket(db, b)) && i in listed :: Rows(db.items, Basket(db, b))[i];
    P.LoadedIsAtRest(rows, db.bookings[b].revision, basketOnly);
  }

  // ------------------------------------------------------------- a save that works

  /** Idle and in step with the server, with nothing unsent. */
  ghost predicate Settling(s: System) {
    && Integrity(s.db) && s.b in s.db.bookings && P.AtRest(s.page) && s.page.active.None? && s.phase.Idle?
    && s.page.revision == s.db.bookings[s.b].revision
    && (forall j :: j in s.page.cards ==> s.page.cards[j].pending.None?)
  }

  /** An edit in stock on an unlocked card, saved at once with nothing going
      wrong: the row holds it, the revision is one up on both sides, and the page
      is idle again and shows it. */
  lemma EditIsSaved(s: System, id: ItemId, q: nat)
    requires Settling(s) && id in s.page.cards && s.page.cards[id].available
    requires R.IsValid(Some(q), s.page.cards[id].max) && Parses(P.Request(id, q, s.page.revision))
    requires id in s.db.items && s.db.items[id].visible && q <= s.db.items[id].stock
    ensures var end := Play(s, [User(P.Edit(id, Some(q), true)), DecideRequest(NoFault), ReadReplyRevision,
                                ReadReplyRows, Deliver]);
            && RowSet(s.db.selections, end.db.selections, s.b, id, q)
            && RevisionUp(s.db.bookings, end.db.bookings, s.b) && s.b in end.db.bookings
            && end.page.revision == end.db.bookings[s.b].revision == s.page.revision + 1
            && end.page.active.None? && end.phase.Idle? && end.stale == s.stale
            && id in end.page.cards && end.page.cards[id].draft == Some(q) && end.page.cards[id].pending.None?
  {
    EditGoesOut(s, id, q);
    hide P.Handle, Apply, Decide, RowSet, RevisionUp, Rows, Basket, Play, P.AtRest, Parses, R.HandedOver, R.OnlyCard;
    hide Next, R.Pursued;
    var moves := [User(P.Edit(id, Some(q), true)), DecideRequest(NoFault), ReadReplyRevision, ReadReplyRows, Deliver];
    WriteIsServed(s, id, q);
    var after := Served(s.db, s.b, P.Request(id, q, s.page.revision), NoFault);
    WriteIsAnswered(s, Next(s, moves[0]), id, q, after, Rows(after.items, Basket(after, s.b)));
    PlayFive(s, moves);
  }

  /** What the server makes of the write. */
  lemma WriteIsServed(s: System, id: ItemId, q: nat)
    requires Settling(s) && Parses(P.Request(id, q, s.page.revision))
    requires id in s.db.items && s.db.items[id].visible && q <= s.db.items[id].stock
    ensures var request := P.Request(id, q, s.page.revision);
            var after := Served(s.db, s.b, request, NoFault);
            && CodeOf(s.db, s.b, request, NoFault) == Saved && s.b in after.bookings
            && RowSet(s.db.selections, after.selections, s.b, id, q)
            && RevisionUp(s.db.bookings, after.bookings, s.b)
            && after.bookings[s.b].revision == s.page.revision + 1
            && var rows := Rows(after.items, Basket(after, s.b));
            id in rows && rows[id].quantity == q && rows[id].available
  {
    hide Apply, Decide, RowSet, RevisionUp, Rows, Basket, P.AtRest;
    CustomerWriteMeans(s.db, s.b, id, q, s.page.revision, NoFault);
    var after := Apply(s.db, Write(s.b, P.Request(id, q, s.page.revision), NoFault));
    UpByOne(s.db.bookings, after.bookings, s.b);
    SavedRow(after, s.b, id, q, s.db.selections);
  }

  /** The rest of the exchange, once the request is out. */
  lemma WriteIsAnswered(s: System, s1: System, id: ItemId, q: nat, after: Db, rows: map<ItemId, Row>)
    requires Settling(s) && id in s.page.cards && s.page.cards[id].available
    requires R.IsValid(Some(q), s.page.cards[id].max) && Sent(s, s1, id, q)
    requires CodeOf(s.db, s.b, P.Request(id, q, s.page.revision), NoFault) == Saved
    requires after == Served(s.db, s.b, P.Request(id, q, s.page.revision), NoFault)
    requires s.b in after.bookings && after.bookings[s.b].revision == s.page.revision + 1
    requires rows == Rows(after.items, Basket(after, s.b))
    requires id in rows && rows[id].quantity == q && rows[id].available
    ensures var s2 := Next(s1, DecideRequest(NoFault));
            && P.Known(s2.page) && P.Known(Next(s2, ReadReplyRevision).page)
            && var s4 := Next(Next(s2, ReadReplyRevision), ReadReplyRows);
            && P.Known(s4.page)
            && var end := Next(s4, Deliver);
            && end.db == after && end.page.revision == s.page.revision + 1
            && end.page.active.None? && end.phase.Idle? && end.stale == s.stale
            && id in end.page.cards && end.page.cards[id].draft == Some(q) && end.page.cards[id].pending.None?
  {
    var request, revision := P.Request(id, q, s.page.revision), s.page.revision + 1;
    hide P.Handle, Next, Rows, Basket, R.HandedOver, R.OnlyCard, R.Pursued, CodeOf, Served;
    ServerSaves(s1, request, after, revision, rows);
    SavedPage(s.page, s1.page, request, revision, rows);
  }

  /** The request of an edit is out and nothing else has happened. */
  ghost predicate Sent(s: System, s1: System, id: ItemId, q: nat) {
    && P.Known(s.page) && P.Known(s1.page) && id in s.page.cards
    && s1.phase == Undecided && s1.db == s.db && s1.b == s.b && s1.stale == s.stale
    && s1.page.active == Some(P.Request(id, q, s.page.revision))
    && R.OnlyCard(s.page, s1.page, id) && R.HandedOver(s.page, s1.page, id, q)
    && id in s1.page.cards && R.Pursued(s1.page, id) == Some(q) && s1.page.cards[id].pending.None?
    && s1.page.cards[id].draft == Some(q) && s1.page.cards[id].max == s.page.cards[id].max
  }

  lemma EditGoesOut(s: System, id: ItemId, q: nat)
    requires Settling(s) && id in s.page.cards && s.page.cards[id].available
    requires R.IsValid(Some(q), s.page.cards[id].max)
    ensures P.Known(s.page) && Sent(s, Next(s, User(P.Edit(id, Some(q), true))), id, q)
  {
    R.EditMeans(s.page, id, Some(q), true);
    hide P.Handle, WishAfter;
  }

  /** The request's way through the server when nothing goes wrong. */
  lemma ServerSaves(s: System, request: P.Request, after: Db, revision: nat, rows: map<ItemId, Row>)
    requires P.Known(s.page) && s.phase == Undecided && s.page.active == Some(request)
    requires CodeOf(s.db, s.b, request, NoFault) == Saved && Served(s.db, s.b, request, NoFault) == after
    requires s.b in after.bookings && after.bookings[s.b].revision == revision
    requires rows == Rows(after.items, Basket(after, s.b))
    ensures var s2 := Next(s, DecideRequest(NoFault));
            && s2.page == s.page && Next(s2, ReadReplyRevision).page == s.page
            && var s4 := Next(Next(s2, ReadReplyRevision), ReadReplyRows);
            && s4 == s.(db := after, phase := RowsRead(Saved, revision, rows))
            && var s5 := Next(s4, Deliver);
            && s5.page == P.Handle(s.page, P.Receive(P.Parsed(Saved, P.Payload(revision, rows))))
            && s5.db == after && s5.stale == s.stale
            && (s5.page.active.None? ==> s5.phase.Idle?)
  {
    hide P.Handle, CodeOf, Served, Rows, Basket;
  }

  lemma UpByOne(before: map<BookingId, Booking>, after: map<BookingId, Booking>, b: BookingId)
    requires RevisionUp(before, after, b) && b in before
    ensures b in after && after[b].revision == before[b].revision + 1
  {
  }

  lemma SavedRow(db: Db, b: BookingId, id: ItemId, q: nat, before: map<(BookingId, ItemId), nat>)
    requires RowSet(before, db.selections, b, id, q) && id in db.items && db.items[id].visible
    ensures var rows := Rows(db.items, Basket(db, b)); id in rows && rows[id].quantity == q && rows[id].available
  {
  }

  /** The page that sent its only wish, when the reply saves it. */
  lemma SavedPage(before: P.Page, p: P.Page, request: P.Request, revision: nat, rows: map<ItemId, Row>)
    requires P.Known(p) && request.id in before.cards && before.cards[request.id].available
    requires (forall j :: j in before.cards ==> before.cards[j].pending.None?) && before.active.None?
    requires R.OnlyCard(before, p, request.id) && R.HandedOver(before, p, request.id, request.quantity)
    requires request == P.Request(request.id, request.quantity, before.revision)
    requires R.Pursued(p, request.id) == Some(request.quantity)
    requires p.cards[request.id].draft == Some(request.quantity)
    requires p.cards[request.id].pending.None?
    requires R.IsValid(p.cards[request.id].draft, p.cards[request.id].max)
    requires request.id in rows && rows[request.id].quantity == request.quantity && rows[request.id].available
    ensures var r := P.Handle(p, P.Receive(P.Parsed(Saved, P.Payload(revision, rows))));
            && r.revision == revision && r.active.None? && request.id in r.cards
            && r.cards[request.id].draft == Some(request.quantity) && r.cards[request.id].pending.None?
  {
    var payload := P.Payload(revision, rows);
    R.SavedReply(p, payload);
    ReplyTakesRevision(p, P.Parsed(Saved, payload));
    hide P.Handle;
    var r := P.Handle(p, P.Receive(P.Parsed(Saved, payload)));
    assert P.Known(r);
    forall j | j in p.cards && j != request.id ensures R.Pursued(r, j).None? {
      R.ReplyForOtherCard(p, P.Parsed(Saved, payload), j);
    }
  }

  lemma PlayFive(s: System, m: seq<Move>)
    requires P.Known(s.page) && |m| == 5
    ensures P.Known(Next(s, m[0]).page) && P.Known(Next(Next(s, m[0]), m[1]).page)
    ensures P.Known(Next(Next(Next(s, m[0]), m[1]), m[2]).page)
    ensures P.Known(Next(Next(Next(Next(s, m[0]), m[1]), m[2]), m[3]).page)
    ensures Play(s, m) == Next(Next(Next(Next(Next(s, m[0]), m[1]), m[2]), m[3]), m[4])
  {
    hide Next;
    assert Play(s, m[..0]) == s;
    PlayNext(s, m, 0);
    PlayNext(s, m, 1);
    PlayNext(s, m, 2);
    PlayNext(s, m, 3);
    PlayNext(s, m, 4);
    assert m[..5] == m;
  }

  lemma PlayNext(s: System, moves: seq<Move>, k: nat)
    requires P.Known(s.page) && k < |moves|
    ensures Play(s, moves[..k + 1]) == Next(Play(s, moves[..k]), moves[k])
  {
    assert moves[..k + 1][..k] == moves[..k];
  }

  /** One card, of which two are wanted and none are held. */
  function Wanting(active: Option<P.Request>, phase: Phase): System {
    var card := P.Card(Some(2), 9, None, false, false, Some(2), 0, true, true);
    var page := P.Page(map[7 := card], [], active, 0, false, [P.Request(7, 2, 0)]);
    System(0, SmallShop(), page, phase, [], map[7 := Want(2)], 0, 0, 0)
  }

  function SmallShop(): Db {
    Db(map[0 := Booking(5, 0)], map[7 := Item(9, true)], map[], 1)
  }

  lemma SmallRows()
    ensures Rows(SmallShop().items, Basket(SmallShop(), 0)) == map[7 := Row(0, 9, true)]
  {
  }

  lemma EditSends()
    ensures Next(OpenedOn(0, SmallShop(), {7}, false), User(P.Edit(7, Some(2), true))) ==
            Wanting(Some(P.Request(7, 2, 0)), Undecided)
  {
    SmallRows();
    hide Rows, Basket;
    var s := OpenedOn(0, SmallShop(), {7}, false);
    assert s.page == FreshCard();
    EditOfFreshCard();
    hide P.Schedule;
  }

  function FreshCard(): P.Page {
    P.Page(map[7 := P.LoadedCard(Row(0, 9, true))], [], None, 0, false, [])
  }

  lemma EditOfFreshCard()
    ensures P.Schedule(FreshCard(), 7, Some(2), true) == Wanting(Some(P.Request(7, 2, 0)), Undecided).page
  {
    var noted := P.Card(Some(2), 9, Some(2), false, false, Some(2), 0, true, true);
    assert P.Noted(FreshCard().cards[7], Some(2), true) == noted;
    var queued := P.Page(map[7 := noted.(queued := true)], [7], None, 0, false, []);
    assert P.Schedule(FreshCard(), 7, Some(2), true) == P.Drain(queued);
    assert P.Drain(queued) == P.Sent(queued);
  }

  lemma CommitFails(request: P.Request)
    requires request == P.Request(7, 2, 0)
    ensures Next(Wanting(Some(request), Undecided), DecideRequest(AtCommit)) ==
            Wanting(Some(request), Decided(SaveFailed))
    ensures Next(Wanting(Some(request), Decided(SaveFailed)), ReadReplyRevision) ==
            Wanting(Some(request), RevisionRead(SaveFailed, 0))
    ensures Next(Wanting(Some(request), RevisionRead(SaveFailed, 0)), ReadReplyRows) ==
            Wanting(Some(request), RowsRead(SaveFailed, 0, map[7 := Row(0, 9, true)]))
  {
    SmallRows();
    hide Rows, Basket;
  }

  lemma RefusalKeepsCard(p: P.Page, payload: P.Payload)
    requires p == Wanting(Some(P.Request(7, 2, 0)), Idle).page && payload == P.Payload(0, map[7 := Row(0, 9, true)])
    ensures P.HandleRefused(p, 7, 2, Some(payload)) == p
  {
    var cleared := P.WithCard(p, 7, p.cards[7].(pending := None));
    assert cleared == p;
    assert P.Refresh(p.cards[7], payload.rows[7], true) == p.cards[7];
    hide P.Refresh, P.PendingIds;
    assert P.Refreshed(p.cards, payload.rows, {7} + P.PendingIds(cleared)) == p.cards;
    hide P.Refreshed;
    assert P.OfferRetry(p, 7, 2).cards == p.cards;
  }

  lemma RefusalArrives(request: P.Request, rows: map<ItemId, Row>)
    requires request == P.Request(7, 2, 0) && rows == map[7 := Row(0, 9, true)]
    ensures Next(Wanting(Some(request), RowsRead(SaveFailed, 0, rows)), Deliver) == Wanting(None, Idle)
  {
    hide P.HandleRefused;
    var s := Wanting(Some(request), RowsRead(SaveFailed, 0, rows));
    RefusalKeepsCard(s.page, P.Payload(0, rows));
    assert P.Settle(s.page, P.Parsed(SaveFailed, P.Payload(0, rows))) == s.page;
    hide P.Settle;
    DeliveryMovesOnlyThePage(s);
  }

  /** The page is quiet, the edit was valid, the card is unlocked, and the basket
      does not hold it: its one commit failed. */
  lemma FailedCommitKeepsOldBasket() returns (s: System, moves: seq<Move>)
    ensures FreshPage(s) && AllCalm(moves, s.b)
    ensures var end := Play(s, moves);
            && Quiescent(end.page) && 7 in end.page.cards && end.page.cards[7].available
            && WishFor(end.wishes, 7) == Want(2) && Kept(end.db, s.b, 7) == 0
            && Refusals(s, moves) == map[7 := 0] && end.page.cards[7].lastAttempt == Some(2)
  {
    s := OpenedOn(0, SmallShop(), {7}, false);
    LoadedPageIsFresh(0, SmallShop(), {7}, false);
    var rows := map[7 := Row(0, 9, true)];
    moves := FailedSave(s, P.Request(7, 2, 0), rows);
    WantingEnds();
    hide Next, P.Handle, OpenedOn, FreshPage, Play, Refusals, AllCalm, Wanting, Kept, Quiescent;
  }

  lemma WantingEnds()
    ensures var end := Wanting(None, Idle);
            && Quiescent(end.page) && 7 in end.page.cards && end.page.cards[7].available
            && WishFor(end.wishes, 7) == Want(2) && Kept(end.db, 0, 7) == 0 && end.page.cards[7].lastAttempt == Some(2)
    ensures OpenedOn(0, SmallShop(), {7}, false).b == 0
  {
  }

  predicate Leads(s: System, m: Move, refused: map<ItemId, nat>, s': System, refused': map<ItemId, nat>) {
    Calm(m, s.b) && P.Known(s.page) && Next(s, m) == s' && RefusedAfter(s, refused, m) == refused'
  }

  lemma {:induction false} PlayLeads(
    s: System, moves: seq<Move>, m: Move, t: System, refused: map<ItemId, nat>, t': System, refused': map<ItemId, nat>)
    requires P.Known(s.page) && Play(s, moves) == t && Refusals(s, moves) == refused && AllCalm(moves, t.b)
    requires Leads(t, m, refused, t', refused')
    ensures Play(s, moves + [m]) == t' && Refusals(s, moves + [m]) == refused' && AllCalm(moves + [m], t.b)
  {
    assert (moves + [m])[..|moves|] == moves;
  }

  lemma SaveSteps(s: System, request: P.Request, rows: map<ItemId, Row>, none: map<ItemId, nat>)
    requires s == OpenedOn(0, SmallShop(), {7}, false) && none == map[]
    requires request == P.Request(7, 2, 0) && rows == map[7 := Row(0, 9, true)]
    ensures Leads(s, User(P.Edit(7, Some(2), true)), none, Wanting(Some(request), Undecided), none)
    ensures Leads(Wanting(Some(request), Undecided), DecideRequest(AtCommit), none,
                  Wanting(Some(request), Decided(SaveFailed)), none)
    ensures Leads(Wanting(Some(request), Decided(SaveFailed)), ReadReplyRevision, none,
                  Wanting(Some(request), RevisionRead(SaveFailed, 0)), none)
    ensures Leads(Wanting(Some(request), RevisionRead(SaveFailed, 0)), ReadReplyRows, none,
                  Wanting(Some(request), RowsRead(SaveFailed, 0, rows)), none)
    ensures Leads(Wanting(Some(request), RowsRead(SaveFailed, 0, rows)), Deliver, none,
                  Wanting(None, Idle), map[7 := 0])
  {
    EditSends();
    CommitFails(request);
    RefusalArrives(request, rows);
    assert P.Known(s.page);
    hide Next, OpenedOn, SmallShop;
    assert none - Renewed(s.page, P.Edit(7, Some(2), true)) == none;
  }

  /** The five moves, and where they lead. */
  lemma FailedSave(s: System, request: P.Request, rows: map<ItemId, Row>) returns (moves: seq<Move>)
    requires s == OpenedOn(0, SmallShop(), {7}, false)
    requires request == P.Request(7, 2, 0) && rows == map[7 := Row(0, 9, true)]
    ensures P.Known(s.page) && AllCalm(moves, 0)
    ensures Play(s, moves) == Wanting(None, Idle) && Refusals(s, moves) == map[7 := 0]
  {
    var none: map<ItemId, nat> := map[];
    SaveSteps(s, request, rows, none);
    assert P.Known(s.page);
    assert Play(s, []) == s && Refusals(s, []) == none && AllCalm([], 0) && s.b == 0;
    assert forall phase, active :: Wanting(active, phase).b == 0;
    hide Play, Refusals, OpenedOn, Wanting, Leads, AllCalm, P.Known;
    var edit := User(P.Edit(7, Some(2), true));
    PlayLeads(s, [], edit, s, none, Wanting(Some(request), Undecided), none);
    assert [] + [edit] == [edit];
    var decide := [edit] + [DecideRequest(AtCommit)];
    PlayLeads(s, [edit], DecideRequest(AtCommit), Wanting(Some(request), Undecided), none,
              Wanting(Some(request), Decided(SaveFailed)), none);
    PlayLeads(s, decide, ReadReplyRevision, Wanting(Some(request), Decided(SaveFailed)), none,
              Wanting(Some(request), RevisionRead(SaveFailed, 0)), none);
    var read := decide + [ReadReplyRevision] + [ReadReplyRows];
    PlayLeads(s, decide + [ReadReplyRevision], ReadReplyRows, Wanting(Some(request), RevisionRead(SaveFailed, 0)), none,
              Wanting(Some(request), RowsRead(SaveFailed, 0, rows)), none);
    moves := read + [Deliver];
    PlayLeads(s, read, Deliver, Wanting(Some(request), RowsRead(SaveFailed, 0, rows)), none,
              Wanting(None, Idle), map[7 := 0]);
  }
}

/** The browser page's autosave queue as a value: what each event handler makes
    of the page, and the invariants of the single-in-flight queue over every
    sequence of events. */
module Page {
  import opened Wrappers
  import Database

  type Id = nat

  const MAX_SAFE_INTEGER: nat := 9_007_199_254_740_991

  /** `draft` is the number the input's text spells, if its trimmed text is all
      digits; `armed` says a debounce timer is running; `listed` is false once
      the basket-only view has dropped the card. */
  datatype Card = Card(
    draft: Option<nat>, max: nat, pending: Option<nat>, queued: bool, armed: bool,
    lastAttempt: Option<nat>, serverValue: nat, available: bool, listed: bool)

  datatype Request = Request(id: Id, quantity: nat, revision: nat)

  /** `active` carries the request in flight; `wire` lists every request sent. */
  datatype Page = Page(
    cards: map<Id, Card>, queue: seq<Id>, active: Option<Request>, revision: nat, basketOnly: bool, wire: seq<Request>)

  datatype Payload = Payload(revision: nat, rows: map<Id, Database.Row>)

  /** A parsed reply of the selection endpoint, or a failed fetch, or a body that
      is not the endpoint's JSON. */
  datatype Response = Parsed(code: Database.Code, payload: Payload) | Unreadable

  datatype Event =
    | Edit(id: Id, draft: Option<nat>, immediate: bool)
    | Retry(id: Id)
    | Timer(id: Id)
    | Receive(response: Response)

  predicate UserEvent(e: Event) {
    e.Edit? || e.Retry?
  }

  // ------------------------------------------------------------------- handlers

  function ParsedQuantity(c: Card): Option<nat> {
    if c.draft.Some? && c.draft.value <= MAX_SAFE_INTEGER && c.draft.value <= c.max then c.draft else None
  }

  function WithCard(p: Page, id: Id, c: Card): Page {
    p.(cards := p.cards[id := c])
  }

  /** Every queued id, and the active one, belongs to a card of the page. */
  predicate Known(p: Page) {
    && (forall k :: 0 <= k < |p.queue| ==> p.queue[k] in p.cards)
    && (p.active.Some? ==> p.active.value.id in p.cards)
  }

  function LoadedCard(row: Database.Row): Card {
    Card(Some(row.quantity), row.stock, None, false, false, None, row.quantity, row.available, true)
  }

  /** The page as the server rendered it. */
  function Loaded(rows: map<Id, Database.Row>, revision: nat, basketOnly: bool): (p: Page)
    ensures Known(p)
  {
    Page(map id | id in rows :: LoadedCard(rows[id]), [], None, revision, basketOnly, [])
  }

  /** The head of the queue taken off. */
  function Popped(p: Page): (r: Page)
    requires Known(p) && p.queue != []
    ensures Known(r) && r.cards.Keys == p.cards.Keys
  {
    var id := p.queue[0];
    WithCard(p, id, p.cards[id].(queued := false)).(queue := p.queue[1..])
  }

  /** The head of the queue taken off and its unsent quantity put on the wire. */
  function Sent(p: Page): (r: Page)
    requires Known(p) && p.queue != [] && p.cards[p.queue[0]].pending.Some?
    ensures Known(r) && r.cards.Keys == p.cards.Keys
  {
    var id, c := p.queue[0], p.cards[p.queue[0]];
    var request := Request(id, c.pending.value, p.revision);
    WithCard(p, id, c.(queued := false, pending := None, lastAttempt := c.pending))
      .(queue := p.queue[1..], active := Some(request), wire := p.wire + [request])
  }

  function Drain(p: Page): (r: Page)
    requires Known(p)
    ensures Known(r) && r.cards.Keys == p.cards.Keys
    decreases |p.queue|
  {
    if p.active.Some? || p.queue == [] then p
    else if p.cards[p.queue[0]].pending.None? then Drain(Popped(p))
    else Sent(p)
  }

  function Enqueue(p: Page, id: Id): (r: Page)
    requires Known(p) && id in p.cards
    ensures Known(r) && r.cards.Keys == p.cards.Keys
  {
    Drain(if p.cards[id].queued then p
          else WithCard(p, id, p.cards[id].(queued := true)).(queue := p.queue + [id]))
  }

  /** An edit as its card records it; a locked card only shows the text. */
  function Noted(c: Card, draft: Option<nat>, immediate: bool): Card {
    var typed := c.(draft := draft);
    var quantity := ParsedQuantity(typed);
    if !c.available then typed
    else if quantity.None? then typed.(pending := None, armed := false)
    else typed.(pending := quantity, lastAttempt := quantity, armed := !immediate)
  }

  predicate Wanted(c: Card) {
    c.available && ParsedQuantity(c).Some?
  }

  function Schedule(p: Page, id: Id, draft: Option<nat>, immediate: bool): (r: Page)
    requires Known(p) && id in p.cards
    ensures Known(r) && r.cards.Keys == p.cards.Keys
  {
    var c := Noted(p.cards[id], draft, immediate);
    if immediate && Wanted(c) then Enqueue(WithCard(p, id, c), id) else WithCard(p, id, c)
  }

  function RetrySave(p: Page, id: Id): (r: Page)
    requires Known(p) && id in p.cards
    ensures Known(r) && r.cards.Keys == p.cards.Keys
  {
    var c := p.cards[id];
    if c.lastAttempt.None? || !c.available then p
    else Enqueue(WithCard(p, id, c.(draft := c.lastAttempt, pending := c.lastAttempt)), id)
  }

  function Fire(p: Page, id: Id): (r: Page)
    requires Known(p) && id in p.cards
    ensures Known(r) && r.cards.Keys == p.cards.Keys
  {
    if p.cards[id].armed then Enqueue(WithCard(p, id, p.cards[id].(armed := false)), id) else p
  }

  function PendingIds(p: Page): set<Id> {
    set id | id in p.cards && p.cards[id].listed && p.cards[id].pending.Some?
  }

  function Lock(c: Card): Card {
    c.(available := false, armed := false, pending := None, lastAttempt := None)
  }

  function Refresh(c: Card, row: Database.Row, keepDraft: bool): Card {
    var known := c.(serverValue := row.quantity, max := row.stock);
    var shown := if row.available then known.(available := true) else Lock(known);
    if keepDraft then shown else shown.(draft := Some(row.quantity))
  }

  function Refreshed(cards: map<Id, Card>, rows: map<Id, Database.Row>, preserve: set<Id>): map<Id, Card> {
    map id | id in cards ::
      if cards[id].listed && id in rows then Refresh(cards[id], rows[id], id in preserve) else cards[id]
  }

  lemma RefreshedKeepsCards(cards: map<Id, Card>, rows: map<Id, Database.Row>, preserve: set<Id>)
    ensures Refreshed(cards, rows, preserve).Keys == cards.Keys
  {
  }

  function ApplySnapshot(p: Page, payload: Payload, preserve: set<Id>): Page {
    p.(revision := payload.revision, cards := Refreshed(p.cards, payload.rows, preserve))
  }

  function HandleSaved(p: Page, id: Id, payload: Payload): (r: Page)
    requires Known(p) && p.active.Some? && id in p.cards
    ensures Known(r) && r.cards.Keys == p.cards.Keys
  {
    var invalid := ParsedQuantity(p.cards[id]).None?;
    var q := ApplySnapshot(p, payload, PendingIds(p) + (if invalid then {id} else {}));
    if invalid then q
    else
      var persisted := if id in payload.rows then payload.rows[id].quantity else 0;
      var c := q.cards[id];
      if c.pending.Some? && c.pending.value != persisted then Enqueue(q, id)
      else
        WithCard(q, id, c.(pending := None, draft := Some(persisted), lastAttempt := None,
                           listed := c.listed && !(p.basketOnly && persisted == 0)))
  }

  function OfferRetry(p: Page, id: Id, desired: nat): Page
    requires id in p.cards
  {
    if p.cards[id].available then WithCard(p, id, p.cards[id].(lastAttempt := Some(desired))) else p
  }

  /** handleStale and handleRetryableFailure: keep the draft, never resend on
      their own, and remember the newest wish for the Retry button. */
  function HandleRefused(p: Page, id: Id, sent: nat, payload: Option<Payload>): Page
    requires id in p.cards
  {
    var c := p.cards[id];
    var desired := if c.pending.Some? then c.pending.value else sent;
    var cleared := WithCard(p, id, c.(pending := None));
    var q := if payload.Some? then ApplySnapshot(cleared, payload.value, {id} + PendingIds(cleared)) else cleared;
    OfferRetry(q, id, desired)
  }

  function HandleStockChange(p: Page, id: Id, payload: Payload): (r: Page)
    requires Known(p) && p.active.Some? && id in p.cards
    ensures Known(r) && r.cards.Keys == p.cards.Keys
  {
    var q := ApplySnapshot(p, payload, PendingIds(p));
    var c := q.cards[id];
    if p.cards[id].pending.Some? && ParsedQuantity(c).Some? then Enqueue(q, id)
    else WithCard(q, id, c.(pending := None, lastAttempt := None, draft := Some(c.serverValue)))
  }

  function HandleUnavailable(p: Page, id: Id, payload: Payload): Page
    requires id in p.cards
  {
    var q := ApplySnapshot(WithCard(p, id, p.cards[id].(pending := None, lastAttempt := None)), payload, {});
    WithCard(q, id, Lock(q.cards[id]))
  }

  function HandleNotFound(p: Page, id: Id, payload: Payload): Page
    requires id in p.cards
  {
    ApplySnapshot(WithCard(p, id, p.cards[id].(pending := None)), payload, {})
  }

  /** The reply's handler, while the request still counts as active. */
  function Settle(p: Page, response: Response): (r: Page)
    requires Known(p) && p.active.Some?
    ensures Known(r) && r.cards.Keys == p.cards.Keys
  {
    var Request(id, sent, _) := p.active.value;
    match response
    case Unreadable => HandleRefused(p, id, sent, None)
    case Parsed(code, payload) =>
      match code
      case Saved => HandleSaved(p, id, payload)
      case Stale => HandleRefused(p, id, sent, Some(payload))
      case OutOfRange => HandleStockChange(p, id, payload)
      case Unavailable => HandleUnavailable(p, id, payload)
      case NotFound => HandleNotFound(p, id, payload)
      case SaveFailed => HandleRefused(p, id, sent, Some(payload))
      case Malformed => HandleRefused(p, id, sent, Some(payload))
  }

  /** One event; events that cannot happen leave the page alone. */
  function Handle(p: Page, e: Event): (r: Page)
    requires Known(p)
    ensures Known(r) && r.cards.Keys == p.cards.Keys
  {
    match e
    case Edit(id, draft, immediate) => if id in p.cards then Schedule(p, id, draft, immediate) else p
    case Retry(id) => if id in p.cards then RetrySave(p, id) else p
    case Timer(id) => if id in p.cards then Fire(p, id) else p
    case Receive(response) => if p.active.Some? then Drain(Settle(p, response).(active := None)) else p
  }

  // ----------------------------------------------------------------- invariants

  /** Queue bookkeeping that holds even inside a handler. */
  ghost predicate Orderly(p: Page) {
    && Known(p)
    && (forall j, k :: 0 <= j < k < |p.queue| ==> p.queue[j] != p.queue[k])
    && (forall id :: id in p.cards ==> (p.cards[id].queued <==> id in p.queue))
    && (forall id :: id in p.cards && p.cards[id].pending.Some? ==> p.cards[id].queued || p.cards[id].armed)
  }

  /** What holds between events: besides, an idle page has an empty queue. */
  ghost predicate AtRest(p: Page) {
    Orderly(p) && (p.active.None? ==> p.queue == [])
  }

  ghost function Unsent(p: Page): set<Id> {
    set id | id in p.cards && p.cards[id].pending.Some?
  }

  lemma PoppedKeepsOrder(p: Page)
    requires Orderly(p) && p.queue != [] && p.cards[p.queue[0]].pending.None?
    ensures Orderly(Popped(p)) && Unsent(Popped(p)) == Unsent(p)
  {
    assert forall j :: j in p.queue[1..] <==> j in p.queue && j != p.queue[0];
  }

  lemma SentKeepsOrder(p: Page)
    requires Orderly(p) && p.queue != [] && p.cards[p.queue[0]].pending.Some?
    ensures Orderly(Sent(p)) && Unsent(Sent(p)) == Unsent(p) - {p.queue[0]}
  {
    assert forall j :: j in p.queue[1..] <==> j in p.queue && j != p.queue[0];
  }

  lemma {:induction false} DrainRestsAndSendsOnlyPending(p: Page)
    requires Orderly(p)
    ensures AtRest(Drain(p))
    ensures |Drain(p).wire| + |Unsent(Drain(p))| == |p.wire| + |Unsent(p)|
    ensures |Drain(p).wire| == |p.wire| + (if p.active.None? && Drain(p).active.Some? then 1 else 0)
    decreases |p.queue|
  {
    if p.active.None? && p.queue != [] {
      if p.cards[p.queue[0]].pending.None? {
        PoppedKeepsOrder(p);
        DrainRestsAndSendsOnlyPending(Popped(p));
      } else {
        SentKeepsOrder(p);
      }
    }
  }

  /** Rewriting one card without touching its place in the queue. */
  lemma CardChangeKeepsOrder(p: Page, id: Id, c: Card)
    requires Orderly(p) && id in p.cards && c.queued == p.cards[id].queued
    requires c.pending.Some? ==> c.queued || c.armed
    ensures Orderly(WithCard(p, id, c))
    ensures Unsent(WithCard(p, id, c)) == if c.pending.Some? then Unsent(p) + {id} else Unsent(p) - {id}
  {
  }

  lemma EnqueueRests(p: Page, id: Id)
    requires Known(p) && id in p.cards
    requires forall j, k :: 0 <= j < k < |p.queue| ==> p.queue[j] != p.queue[k]
    requires forall j :: j in p.cards ==> (p.cards[j].queued <==> j in p.queue)
    requires forall j :: j in p.cards && j != id && p.cards[j].pending.Some? ==> p.cards[j].queued || p.cards[j].armed
    ensures AtRest(Enqueue(p, id))
    ensures |Enqueue(p, id).wire| + |Unsent(Enqueue(p, id))| == |p.wire| + |Unsent(p)|
    ensures |Enqueue(p, id).wire| == |p.wire| + (if p.active.None? && Enqueue(p, id).active.Some? then 1 else 0)
  {
    var q := if p.cards[id].queued then p
             else WithCard(p, id, p.cards[id].(queued := true)).(queue := p.queue + [id]);
    assert Unsent(q) == Unsent(p);
    DrainRestsAndSendsOnlyPending(q);
  }

  lemma SnapshotKeepsOrder(p: Page, payload: Payload, preserve: set<Id>)
    requires Orderly(p)
    ensures Orderly(ApplySnapshot(p, payload, preserve))
    ensures Unsent(ApplySnapshot(p, payload, preserve)) <= Unsent(p)
  {
    forall c: Card, row, keep
      ensures var r := Refresh(c, row, keep);
              r.queued == c.queued && (r.pending.Some? ==> r.pending == c.pending && r.armed == c.armed)
    {
    }
    hide Refresh;
  }

  lemma EnqueueWhileActive(p: Page, id: Id)
    requires Orderly(p) && p.active.Some? && id in p.cards
    ensures Orderly(Enqueue(p, id)) && Unsent(Enqueue(p, id)) == Unsent(p)
    ensures Enqueue(p, id).wire == p.wire && Enqueue(p, id).active == p.active
  {
  }

  lemma SavedKeepsOrder(p: Page, id: Id, payload: Payload)
    requires Orderly(p) && p.active.Some? && id in p.cards
    ensures var r := HandleSaved(p, id, payload);
            Orderly(r) && r.active == p.active && r.wire == p.wire && Unsent(r) <= Unsent(p)
  {
    var invalid := ParsedQuantity(p.cards[id]).None?;
    var preserve := PendingIds(p) + (if invalid then {id} else {});
    SnapshotKeepsOrder(p, payload, preserve);
    var q := ApplySnapshot(p, payload, preserve);
    if !invalid {
      var persisted := if id in payload.rows then payload.rows[id].quantity else 0;
      var c := q.cards[id];
      if c.pending.Some? && c.pending.value != persisted {
        EnqueueWhileActive(q, id);
      } else {
        CardChangeKeepsOrder(q, id, c.(pending := None, draft := Some(persisted), lastAttempt := None,
                             listed := c.listed && !(p.basketOnly && persisted == 0)));
      }
    }
  }

  lemma RefusedKeepsOrder(p: Page, id: Id, sent: nat, payload: Option<Payload>)
    requires Orderly(p) && id in p.cards
    ensures var r := HandleRefused(p, id, sent, payload);
            Orderly(r) && r.active == p.active && r.wire == p.wire && Unsent(r) <= Unsent(p)
  {
    var c := p.cards[id];
    var desired := if c.pending.Some? then c.pending.value else sent;
    var cleared := WithCard(p, id, c.(pending := None));
    CardChangeKeepsOrder(p, id, c.(pending := None));
    if payload.Some? {
      SnapshotKeepsOrder(cleared, payload.value, {id} + PendingIds(cleared));
    }
    var q := if payload.Some? then ApplySnapshot(cleared, payload.value, {id} + PendingIds(cleared)) else cleared;
    CardChangeKeepsOrder(q, id, q.cards[id].(lastAttempt := Some(desired)));
    assert Unsent(WithCard(q, id, q.cards[id].(lastAttempt := Some(desired)))) <= Unsent(q);
  }

  lemma StockChangeKeepsOrder(p: Page, id: Id, payload: Payload)
    requires Orderly(p) && p.active.Some? && id in p.cards
    ensures var r := HandleStockChange(p, id, payload);
            Orderly(r) && r.active == p.active && r.wire == p.wire && Unsent(r) <= Unsent(p)
  {
    SnapshotKeepsOrder(p, payload, PendingIds(p));
    var q := ApplySnapshot(p, payload, PendingIds(p));
    var c := q.cards[id];
    if p.cards[id].pending.Some? && ParsedQuantity(c).Some? {
      EnqueueWhileActive(q, id);
    } else {
      CardChangeKeepsOrder(q, id, c.(pending := None, lastAttempt := None, draft := Some(c.serverValue)));
    }
  }

  lemma UnavailableKeepsOrder(p: Page, id: Id, payload: Payload)
    requires Orderly(p) && id in p.cards
    ensures var r := HandleUnavailable(p, id, payload);
            Orderly(r) && r.active == p.active && r.wire == p.wire && Unsent(r) <= Unsent(p)
    ensures var r := HandleNotFound(p, id, payload);
            Orderly(r) && r.active == p.active && r.wire == p.wire && Unsent(r) <= Unsent(p)
  {
    var c := p.cards[id];
    CardChangeKeepsOrder(p, id, c.(pending := None));
    SnapshotKeepsOrder(WithCard(p, id, c.(pending := None)), payload, {});
    CardChangeKeepsOrder(p, id, c.(pending := None, lastAttempt := None));
    var cleared := WithCard(p, id, c.(pending := None, lastAttempt := None));
    SnapshotKeepsOrder(cleared, payload, {});
    var q := ApplySnapshot(cleared, payload, {});
    CardChangeKeepsOrder(q, id, Lock(q.cards[id]));
  }

  lemma SettleKeepsOrder(p: Page, response: Response)
    requires Orderly(p) && p.active.Some?
    ensures Orderly(Settle(p, response)) && Settle(p, response).active == p.active
    ensures Settle(p, response).wire == p.wire && Unsent(Settle(p, response)) <= Unsent(p)
  {
    var Request(id, sent, _) := p.active.value;
    match response
    case Unreadable => RefusedKeepsOrder(p, id, sent, None);
    case Parsed(code, payload) =>
      match code
      case Saved => SavedKeepsOrder(p, id, payload);
      case OutOfRange => StockChangeKeepsOrder(p, id, payload);
      case Unavailable => UnavailableKeepsOrder(p, id, payload);
      case NotFound => UnavailableKeepsOrder(p, id, payload);
      case Stale => RefusedKeepsOrder(p, id, sent, Some(payload));
      case SaveFailed => RefusedKeepsOrder(p, id, sent, Some(payload));
      case Malformed => RefusedKeepsOrder(p, id, sent, Some(payload));
  }

  lemma ScheduleKeepsQueue(p: Page, id: Id, draft: Option<nat>, immediate: bool)
    requires AtRest(p) && id in p.cards
    ensures var r := Schedule(p, id, draft, immediate);
            AtRest(r) && |r.wire| + InFlight(p) == |p.wire| + InFlight(r)
  {
    var c := Noted(p.cards[id], draft, immediate);
    if immediate && Wanted(c) {
      EnqueueRests(WithCard(p, id, c), id);
    } else {
      CardChangeKeepsOrder(p, id, c);
    }
  }

  lemma RetryKeepsQueue(p: Page, id: Id)
    requires AtRest(p) && id in p.cards
    ensures var r := RetrySave(p, id);
            AtRest(r) && |r.wire| + InFlight(p) == |p.wire| + InFlight(r)
  {
    var c := p.cards[id];
    if c.lastAttempt.Some? && c.available {
      hide Enqueue;
      EnqueueRests(WithCard(p, id, c.(draft := c.lastAttempt, pending := c.lastAttempt)), id);
    }
  }

  lemma FireKeepsQueue(p: Page, id: Id)
    requires AtRest(p) && id in p.cards
    ensures var r := Fire(p, id);
            && AtRest(r) && |r.wire| + InFlight(p) == |p.wire| + InFlight(r)
            && |r.wire| + |Unsent(r)| == |p.wire| + |Unsent(p)|
  {
    if p.cards[id].armed {
      var fired := WithCard(p, id, p.cards[id].(armed := false));
      assert Unsent(fired) == Unsent(p);
      EnqueueRests(fired, id);
    }
  }

  lemma ReceiveKeepsQueue(p: Page, response: Response)
    requires AtRest(p) && p.active.Some?
    ensures var r := Handle(p, Receive(response));
            && AtRest(r) && |r.wire| + InFlight(p) == |p.wire| + 1 + InFlight(r)
            && |r.wire| + |Unsent(r)| <= |p.wire| + |Unsent(p)|
  {
    hide Settle, Drain;
    SettleKeepsOrder(p, response);
    ReleaseKeepsQueue(p, Settle(p, response));
  }

  /** The page after a reply's handler drops its claim and drains. */
  lemma ReleaseKeepsQueue(p: Page, settled: Page)
    requires Orderly(settled) && settled.active.Some? && settled.wire == p.wire && Unsent(settled) <= Unsent(p)
    ensures var r := Drain(settled.(active := None));
            && AtRest(r) && |r.wire| == |p.wire| + InFlight(r)
            && |r.wire| + |Unsent(r)| <= |p.wire| + |Unsent(p)|
  {
    var released := settled.(active := None);
    assert Orderly(released) && Unsent(released) == Unsent(settled);
    SubsetIsSmaller(Unsent(released), Unsent(p));
    hide Drain;
    DrainRestsAndSendsOnlyPending(released);
  }

  /** Each event keeps the page at rest, sends at most one request and only when
      none is in flight; only a user's event can add to the work outstanding. */
  lemma EventKeepsQueue(p: Page, e: Event)
    requires AtRest(p)
    ensures AtRest(Handle(p, e))
    ensures !UserEvent(e) ==> |Handle(p, e).wire| + |Unsent(Handle(p, e))| <= |p.wire| + |Unsent(p)|
    ensures |Handle(p, e).wire| == |p.wire| + Answered(p, e) + InFlight(Handle(p, e)) - InFlight(p)
  {
    hide Drain, Schedule, Fire, Settle, Noted;
    match e
    case Edit(id, draft, immediate) =>
      if id in p.cards {
        ScheduleKeepsQueue(p, id, draft, immediate);
      }
    case Retry(id) =>
      if id in p.cards {
        RetryKeepsQueue(p, id);
      }
    case Timer(id) =>
      if id in p.cards {
        FireKeepsQueue(p, id);
      }
    case Receive(response) =>
      if p.active.Some? {
        ReceiveKeepsQueue(p, response);
      }
  }

  lemma {:induction false} SubsetIsSmaller<T>(a: set<T>, b: set<T>)
    requires a <= b
    ensures |a| <= |b|
  {
    if a != {} {
      var x :| x in a;
      SubsetIsSmaller(a - {x}, b - {x});
    }
  }

  function InFlight(p: Page): nat {
    if p.active.Some? then 1 else 0
  }

  function Answered(p: Page, e: Event): nat {
    if e.Receive? && p.active.Some? then 1 else 0
  }

  function PageRun(p: Page, events: seq<Event>): (r: Page)
    requires Known(p)
    ensures Known(r)
  {
    if events == [] then p else Handle(PageRun(p, events[..|events| - 1]), events[|events| - 1])
  }

  function Replies(p: Page, events: seq<Event>): nat
    requires Known(p)
  {
    if events == [] then 0
    else
      var init := events[..|events| - 1];
      Replies(p, init) + Answered(PageRun(p, init), events[|events| - 1])
  }

  /** At every event boundary of every run the queue is in order, every unsent
      edit is queued or about to fire, and at most one request is unanswered. */
  lemma {:induction false} QueueInvariant(p: Page, events: seq<Event>)
    requires AtRest(p)
    ensures AtRest(PageRun(p, events))
    ensures |PageRun(p, events).wire| + InFlight(p) ==
            |p.wire| + Replies(p, events) + InFlight(PageRun(p, events))
  {
    if events != [] {
      var init := events[..|events| - 1];
      QueueInvariant(p, init);
      EventKeepsQueue(PageRun(p, init), events[|events| - 1]);
    }
  }

  /** Once the user stops, the page sends at most one more request for each card
      that then held an unsent edit, whatever the timers and replies do. */
  lemma {:induction false} RequestsAfterLastEditAreBounded(p: Page, events: seq<Event>)
    requires AtRest(p)
    requires forall k :: 0 <= k < |events| ==> !UserEvent(events[k])
    ensures |PageRun(p, events).wire| + |Unsent(PageRun(p, events))| <= |p.wire| + |Unsent(p)|
  {
    if events != [] {
      var init := events[..|events| - 1];
      RequestsAfterLastEditAreBounded(p, init);
      QueueInvariant(p, init);
      EventKeepsQueue(PageRun(p, init), events[|events| - 1]);
    }
  }

  /** A page just loaded meets what every event then keeps. */
  lemma LoadedIsAtRest(rows: map<Id, Database.Row>, revision: nat, basketOnly: bool)
    ensures AtRest(Loaded(rows, revision, basketOnly)) && Unsent(Loaded(rows, revision, basketOnly)) == {}
  {
  }

  /** A page with nothing in flight and no timer running has no unsent edit. */
  lemma QuietPageHasNothingUnsent(p: Page)
    requires AtRest(p) && p.active.None? && forall id :: id in p.cards ==> !p.cards[id].armed
    ensures Unsent(p) == {}
  {
    forall id | id in p.cards ensures p.cards[id].pending.None? {
      assert p.cards[id].queued <==> id in p.queue;
    }
  }
}

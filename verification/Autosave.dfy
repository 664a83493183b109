/** One browser page, the server and everybody else, composed: the page's events,
    the request's journey (decided, revision read, rows read, delivered or lost)
    and arbitrary other transactions interleave freely. */
module Autosave {
  import opened Wrappers
  import opened Database
  import Numbers
  import P = Page

  /** Where the page's one request is. */
  datatype Phase =
    | Idle
    | Undecided
    | Decided(code: Code)
    | RevisionRead(code: Code, revision: nat)
    | RowsRead(code: Code, revision: nat, rows: map<ItemId, Row>)

  /** A user's last wish for a card: none, an invalid draft, or a quantity. */
  datatype Wish = Unspoken | Invalid | Want(quantity: nat)

  /** `orphans` are requests whose reply the page gave up on before the server
      decided them; the server may still do so. The counters record stale
      rejections, accepted writes of others to this booking, and replies lost. */
  datatype System = System(
    b: BookingId, db: Db, page: P.Page, phase: Phase, orphans: seq<P.Request>, wishes: map<ItemId, Wish>,
    stale: nat, foreign: nat, lost: nat)

  datatype Move =
    | User(event: P.Event)
    | TimerFires(id: ItemId)
    | DecideRequest(fault: Fault)
    | ReadReplyRevision
    | ReadReplyRows
    | Deliver
    | Lose
    | DecideOrphan(k: nat, fault: Fault)
    | Other(step: Step)

  function Write(b: BookingId, r: P.Request, fault: Fault): Step {
    CustomerWrite(b, r.id, r.quantity, r.revision, fault)
  }

  /** The numbers the page prints are within what the server parses. */
  predicate Parses(r: P.Request) {
    r.quantity <= Numbers.MAX_SELECTED_QUANTITY && r.revision <= Numbers.MAX_REVISION
  }

  /** That is what the server's parsers say of the printed numbers. */
  lemma ParsesIsParsing(r: P.Request)
    ensures Parses(r) <==>
            && Numbers.ParseQuantity(Numbers.Print(r.quantity)) == Ok(r.quantity)
            && Numbers.ParseRevision(Numbers.Print(r.revision)) == Ok(r.revision)
  {
    Numbers.QuantityRoundTrip(r.quantity);
    Numbers.RevisionRoundTrip(r.revision);
  }

  function CodeOf(db: Db, b: BookingId, r: P.Request, fault: Fault): Code {
    if Parses(r) then Decide(db, b, r.id, r.quantity, r.revision, fault) else Malformed
  }

  /** The database once the request is decided. */
  function Served(db: Db, b: BookingId, r: P.Request, fault: Fault): Db {
    if Parses(r) then Apply(db, Write(b, r, fault)) else db
  }

  function One(condition: bool): nat {
    if condition then 1 else 0
  }

  function WishAfter(s: System, e: P.Event): map<ItemId, Wish> {
    match e
    case Edit(id, draft, immediate) =>
      if id in s.page.cards && s.page.cards[id].available then
        var c := P.Noted(s.page.cards[id], draft, immediate);
        s.wishes[id := if P.Wanted(c) then Want(P.ParsedQuantity(c).value) else Invalid]
      else s.wishes
    case Retry(id) =>
      if id in s.page.cards && s.page.cards[id].available && s.page.cards[id].lastAttempt.Some?
      then s.wishes[id := Want(s.page.cards[id].lastAttempt.value)]
      else s.wishes
    case _ => s.wishes
  }

  /** The page handles an event; if it was idle it may have sent a request. */
  function PageMoves(s: System, e: P.Event): System
    requires P.Known(s.page)
  {
    var page := P.Handle(s.page, e);
    s.(page := page,
       phase := if page.active.None? then Idle else if s.phase.Idle? || e.Receive? then Undecided else s.phase)
  }

  /** One move; a move that is not possible now changes nothing. */
  function Next(s: System, m: Move): System
    requires P.Known(s.page)
  {
    match m
    case User(e) =>
      if P.UserEvent(e) then PageMoves(s, e).(wishes := WishAfter(s, e)) else s
    case TimerFires(id) => PageMoves(s, P.Timer(id))
    case DecideRequest(fault) =>
      if s.phase.Undecided? && s.page.active.Some? then
        var code := CodeOf(s.db, s.b, s.page.active.value, fault);
        s.(db := Served(s.db, s.b, s.page.active.value, fault), phase := Decided(code),
           stale := s.stale + One(code == Stale))
      else s
    case ReadReplyRevision =>
      if s.phase.Decided? && s.b in s.db.bookings
      then s.(phase := RevisionRead(s.phase.code, s.db.bookings[s.b].revision)) else s
    case ReadReplyRows =>
      if s.phase.RevisionRead?
      then s.(phase := RowsRead(s.phase.code, s.phase.revision, Rows(s.db.items, Basket(s.db, s.b)))) else s
    case Deliver =>
      if s.phase.RowsRead?
      then PageMoves(s, P.Receive(P.Parsed(s.phase.code, P.Payload(s.phase.revision, s.phase.rows)))) else s
    case Lose =>
      if s.page.active.Some? then
        PageMoves(s, P.Receive(P.Unreadable))
          .(lost := s.lost + 1,
            orphans := if s.phase.Undecided? then s.orphans + [s.page.active.value] else s.orphans)
      else s
    case DecideOrphan(k, fault) =>
      if k < |s.orphans| then
        s.(db := Served(s.db, s.b, s.orphans[k], fault),
           orphans := s.orphans[..k] + s.orphans[k + 1..],
           stale := s.stale + One(CodeOf(s.db, s.b, s.orphans[k], fault) == Stale))
      else s
    case Other(step) =>
      s.(db := Apply(s.db, step), foreign := s.foreign + One(Accepts(s.db, step, s.b)))
  }

  // ------------------------------------------------------------ stale accounting

  /** The next write of the page would be rejected as stale, or the revision on
      its way to the page is already behind. */
  predicate OutOfSync(s: System) {
    && s.b in s.db.bookings
    && var current := s.db.bookings[s.b].revision;
       match s.phase
       case Idle => s.page.revision != current
       case Undecided => s.page.revision != current
       case Decided(_) => false
       case RevisionRead(_, revision) => revision != current
       case RowsRead(_, revision, _) => revision != current
  }

  /** Each stale rejection, each orphan and a page out of step is paid for by a
      foreign write or a lost reply. */
  ghost predicate Accounted(s: System) {
    && Integrity(s.db) && s.b in s.db.bookings && P.AtRest(s.page)
    && (s.phase.Idle? <==> s.page.active.None?)
    && (s.page.active.Some? ==> s.page.active.value.revision == s.page.revision)
    && s.stale + |s.orphans| + One(OutOfSync(s)) <= s.foreign + s.lost
  }

  lemma {:induction false} DrainSendsCurrentRevision(p: P.Page)
    requires P.Known(p) && p.active.None?
    ensures P.Drain(p).revision == p.revision
    ensures P.Drain(p).active.Some? ==> P.Drain(p).active.value.revision == p.revision
    decreases |p.queue|
  {
    if p.queue != [] && p.cards[p.queue[0]].pending.None? {
      DrainSendsCurrentRevision(P.Popped(p));
    }
  }

  lemma EnqueueSendsCurrentRevision(p: P.Page, id: ItemId)
    requires P.Known(p) && id in p.cards
    ensures var r := P.Enqueue(p, id);
            && r.revision == p.revision
            && (p.active.Some? ==> r.active == p.active)
            && (p.active.None? && r.active.Some? ==> r.active.value.revision == p.revision)
  {
    if p.active.None? {
      DrainSendsCurrentRevision(
        if p.cards[id].queued then p
        else P.WithCard(p, id, p.cards[id].(queued := true)).(queue := p.queue + [id]));
    }
  }

  /** User events and timers leave the revision and a request in flight alone. */
  lemma LocalEventKeepsRevision(p: P.Page, e: P.Event)
    requires P.Known(p) && !e.Receive?
    ensures var r := P.Handle(p, e);
            && r.revision == p.revision
            && (p.active.Some? ==> r.active == p.active)
            && (p.active.None? && r.active.Some? ==> r.active.value.revision == p.revision)
  {
    hide P.Enqueue, P.Noted, P.Wanted;
    match e
    case Edit(id, draft, immediate) =>
      if id in p.cards {
        EnqueueSendsCurrentRevision(P.WithCard(p, id, P.Noted(p.cards[id], draft, immediate)), id);
      }
    case Retry(id) =>
      if id in p.cards {
        var c := p.cards[id];
        EnqueueSendsCurrentRevision(P.WithCard(p, id, c.(draft := c.lastAttempt, pending := c.lastAttempt)), id);
      }
    case Timer(id) =>
      if id in p.cards {
        EnqueueSendsCurrentRevision(P.WithCard(p, id, p.cards[id].(armed := false)), id);
      }
    case Receive(_) =>
  }

  lemma SavedTakesRevision(p: P.Page, id: ItemId, payload: P.Payload)
    requires P.Known(p) && p.active.Some? && id in p.cards
    ensures P.HandleSaved(p, id, payload).revision == payload.revision
    ensures P.HandleStockChange(p, id, payload).revision == payload.revision
  {
    hide P.Refreshed, P.Enqueue;
    var invalid := P.ParsedQuantity(p.cards[id]).None?;
    var preserve := P.PendingIds(p) + (if invalid then {id} else {});
    P.RefreshedKeepsCards(p.cards, payload.rows, preserve);
    P.RefreshedKeepsCards(p.cards, payload.rows, P.PendingIds(p));
    EnqueueSendsCurrentRevision(P.ApplySnapshot(p, payload, preserve), id);
    EnqueueSendsCurrentRevision(P.ApplySnapshot(p, payload, P.PendingIds(p)), id);
  }

  lemma SettleTakesRevision(p: P.Page, response: P.Response)
    requires P.Known(p) && p.active.Some?
    ensures P.Settle(p, response).revision == if response.Parsed? then response.payload.revision else p.revision
  {
    hide P.Refreshed, P.HandleSaved, P.HandleStockChange;
    if response.Parsed? {
      SavedTakesRevision(p, p.active.value.id, response.payload);
    }
  }

  /** Every parsed reply resynchronises the page. */
  lemma ReplyTakesRevision(p: P.Page, response: P.Response)
    requires P.Known(p) && p.active.Some?
    ensures var r := P.Handle(p, P.Receive(response));
            && r.revision == (if response.Parsed? then response.payload.revision else p.revision)
            && (r.active.Some? ==> r.active.value.revision == r.revision)
  {
    hide P.Settle, P.Drain;
    SettleTakesRevision(p, response);
    DrainSendsCurrentRevision(P.Settle(p, response).(active := None));
  }

  lemma OtherStepKeepsAccount(s: System, step: Step)
    requires Accounted(s) && step != DeleteBooking(s.b)
    ensures Accounted(Next(s, Other(step)))
  {
    ApplyKeepsIntegrity(s.db, step);
    hide P.AtRest, P.Orderly, P.Handle, Integrity;
    RevisionMovesOnlyWhenAccepted(s.db, step, s.b);
  }

  lemma RevisionMovesOnlyWhenAccepted(db: Db, step: Step, b: BookingId)
    requires Integrity(db) && b in db.bookings && step != DeleteBooking(b)
    ensures b in Apply(db, step).bookings
    ensures Apply(db, step).bookings[b].revision == db.bookings[b].revision + One(Accepts(db, step, b))
  {
  }

  lemma DecisionKeepsAccount(s: System, m: Move)
    requires Accounted(s) && (m.DecideRequest? || m.DecideOrphan?)
    ensures Accounted(Next(s, m))
  {
    var r := if m.DecideRequest? && s.page.active.Some? then s.page.active.value
             else if m.DecideOrphan? && m.k < |s.orphans| then s.orphans[m.k]
             else P.Request(0, 0, 0);
    var step := Write(s.b, r, m.fault);
    ApplyKeepsIntegrity(s.db, step);
    RevisionMovesOnlyWhenAccepted(s.db, step, s.b);
    hide P.AtRest, P.Orderly, P.Handle, Integrity, Apply;
  }

  lemma PageKeepsAccount(s: System, m: Move)
    requires Accounted(s) && (m.User? || m.TimerFires? || m.Deliver? || m.Lose?)
    ensures Accounted(Next(s, m))
  {
    hide P.Handle, Integrity, WishAfter;
    match m
    case User(e) =>
      P.EventKeepsQueue(s.page, e);
      if !e.Receive? { LocalEventKeepsRevision(s.page, e); }
    case TimerFires(id) =>
      P.EventKeepsQueue(s.page, P.Timer(id));
      LocalEventKeepsRevision(s.page, P.Timer(id));
    case Deliver =>
      if s.phase.RowsRead? {
        var response := P.Parsed(s.phase.code, P.Payload(s.phase.revision, s.phase.rows));
        P.EventKeepsQueue(s.page, P.Receive(response));
        ReplyTakesRevision(s.page, response);
      }
    case Lose =>
      if s.page.active.Some? {
        P.EventKeepsQueue(s.page, P.Receive(P.Unreadable));
        ReplyTakesRevision(s.page, P.Unreadable);
      }
    case _ =>
  }

  lemma MoveKeepsAccount(s: System, m: Move)
    requires Accounted(s) && m != Other(DeleteBooking(s.b))
    ensures Accounted(Next(s, m)) && Next(s, m).b == s.b
  {
    hide Accounted, P.Handle, OutOfSync;
    match m
    case Other(step) => OtherStepKeepsAccount(s, step);
    case DecideRequest(_) => DecisionKeepsAccount(s, m);
    case DecideOrphan(_, _) => DecisionKeepsAccount(s, m);
    case ReadReplyRevision => ReadKeepsAccount(s, m);
    case ReadReplyRows => ReadKeepsAccount(s, m);
    case _ => PageKeepsAccount(s, m);
  }

  lemma ReadKeepsAccount(s: System, m: Move)
    requires Accounted(s) && (m.ReadReplyRevision? || m.ReadReplyRows?)
    ensures Accounted(Next(s, m))
  {
    hide P.AtRest, P.Orderly, P.Handle, Integrity;
  }

  function Play(s: System, moves: seq<Move>): (r: System)
    requires P.Known(s.page)
    ensures P.Known(r.page)
  {
    if moves == [] then s else Next(Play(s, moves[..|moves| - 1]), moves[|moves| - 1])
  }

  /** A page just opened: idle, and holding the booking's current revision. Its
      cards may show rows read later. */
  ghost predicate Opened(s: System) {
    && Integrity(s.db) && s.b in s.db.bookings && P.AtRest(s.page) && s.page.active.None?
    && s.page.revision == s.db.bookings[s.b].revision
    && s.phase.Idle? && s.orphans == [] && s.stale == s.foreign == s.lost == 0
  }

  lemma {:induction false} PlayKeepsAccount(s: System, moves: seq<Move>)
    requires Accounted(s)
    requires forall k :: 0 <= k < |moves| ==> moves[k] != Other(DeleteBooking(s.b))
    ensures Accounted(Play(s, moves)) && Play(s, moves).b == s.b
  {
    if moves != [] {
      PlayKeepsAccount(s, moves[..|moves| - 1]);
      MoveKeepsAccount(Play(s, moves[..|moves| - 1]), moves[|moves| - 1]);
    }
  }

  /** Over any run of one page on a surviving booking, stale rejections are at
      most the accepted writes of others plus the replies lost on the way. */
  lemma StaleRejectionsArePaidFor(s: System, moves: seq<Move>)
    requires Opened(s)
    requires forall k :: 0 <= k < |moves| ==> moves[k] != Other(DeleteBooking(s.b))
    ensures Play(s, moves).stale <= Play(s, moves).foreign + Play(s, moves).lost
  {
    PlayKeepsAccount(s, moves);
  }

  /** Giving up on a reply does not take the request back: before it is decided
      it can still be served, exactly once and as if it had been answered. */
  lemma LostRequestMayBeServed(s: System, fault: Fault)
    requires P.Known(s.page) && s.page.active.Some? && s.phase.Undecided?
    ensures var request := s.page.active.value;
            var lost := Next(s, Lose);
            && lost.db == s.db && lost.lost == s.lost + 1 && lost.stale == s.stale
            && lost.orphans == s.orphans + [request]
            && var served := Next(lost, DecideOrphan(|s.orphans|, fault));
               && served.db == Next(s, DecideRequest(fault)).db && served.orphans == s.orphans
               && served.stale == Next(s, DecideRequest(fault)).stale && served.page == lost.page
  {
    hide P.Handle;
    var lost := Next(s, Lose);
    assert lost.orphans[..|s.orphans|] + lost.orphans[|s.orphans| + 1..] == s.orphans;
  }
}

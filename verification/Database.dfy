/** The SQLite tables the application writes, as a value: bookings with their
    revision, catalogue items, and the booking_selections join table. Every
    write transaction is one `Step`; a run is a sequence of steps in commit
    order, so any interleaving of customers, administrators and catalogue work
    is some run. Reads are steps too: a reply's revision and its rows are two
    separate statements and may be separated by other transactions. */
module Database {
  import opened Wrappers

  type BookingId = nat
  type ItemId = nat

  datatype Booking = Booking(date: int, revision: nat)

  datatype Item = Item(stock: nat, visible: bool)

  /** `nextBooking` is SQLite's autoincrement counter: booking ids are never
      reused. Item ids have no such counter and may be. */
  datatype Db = Db(
    bookings: map<BookingId, Booking>,
    items: map<ItemId, Item>,
    selections: map<(BookingId, ItemId), nat>,
    nextBooking: nat)

  /** The CHECK, primary-key and foreign-key constraints of the schema. */
  ghost predicate Integrity(db: Db) {
    && (forall k :: k in db.selections ==> db.selections[k] > 0)
    && (forall k :: k in db.selections ==> k.0 in db.bookings)
    && (forall k :: k in db.selections ==> k.1 in db.items)
    && (forall b :: b in db.bookings ==> b < db.nextBooking)
  }

  function Basket(db: Db, b: BookingId): map<ItemId, nat> {
    map i | i in db.items && (b, i) in db.selections :: db.selections[(b, i)]
  }

  /** One entry of a reply's `selections` object. */
  datatype Row = Row(quantity: nat, stock: nat, available: bool)

  /** The rows read for a reply: every visible item plus hidden selections. */
  function Rows(items: map<ItemId, Item>, basket: map<ItemId, nat>): map<ItemId, Row> {
    map i | i in items && (items[i].visible || i in basket) ::
      Row(if i in basket then basket[i] else 0, items[i].stock, items[i].visible)
  }

  /** Where, if anywhere, the database raises during a customer write. */
  datatype Fault = NoFault | AtClaim | AtItemRead | AtCommit

  /** A reply's code; `Malformed` is for a request whose numbers do not parse,
      which never gets as far as a step. */
  datatype Code = Saved | Stale | NotFound | Unavailable | OutOfRange | SaveFailed | Malformed

  datatype Step =
    | CustomerWrite(b: BookingId, i: ItemId, quantity: nat, expected: nat, fault: Fault)
    | AdminWrite(b: BookingId, i: ItemId, quantity: nat, commits: bool)
    | ReadRevision(b: BookingId)
    | ReadRows(b: BookingId)
    | CreateBooking(date: int)
    | SetDate(b: BookingId, date: int)
    | DeleteBooking(b: BookingId)
    | CreateItem(i: ItemId, item: Item)
    | UpdateItem(i: ItemId, stock: Option<nat>, visible: Option<bool>)
    | DeleteItem(i: ItemId, today: int, commits: bool)

  /** Sets one selection; zero removes the row. */
  function Put(selections: map<(BookingId, ItemId), nat>, b: BookingId, i: ItemId, quantity: nat)
    : map<(BookingId, ItemId), nat>
  {
    if quantity == 0 then selections - {(b, i)} else selections[(b, i) := quantity]
  }

  /** The answer to a customer write, decided in the order of the handler. */
  function Decide(db: Db, b: BookingId, i: ItemId, quantity: nat, expected: nat, fault: Fault): Code {
    if fault.AtClaim? then SaveFailed
    else if b !in db.bookings || db.bookings[b].revision != expected then Stale
    else if fault.AtItemRead? then SaveFailed
    else if i !in db.items then NotFound
    else if !db.items[i].visible then Unavailable
    else if quantity > db.items[i].stock then OutOfRange
    else if fault.AtCommit? then SaveFailed
    else Saved
  }

  /** An administrator write commits unless it inserts a row whose parents have
      gone: then the foreign key fails and the whole transaction rolls back. */
  predicate AdminCommits(db: Db, b: BookingId, i: ItemId, quantity: nat, commits: bool) {
    commits && (quantity == 0 || (b in db.bookings && i in db.items))
  }

  /** True of the steps that move the revision of booking `b`. */
  predicate Accepts(db: Db, step: Step, b: BookingId) {
    && b in db.bookings
    && match step
       case CustomerWrite(c, i, q, r, fault) => c == b && Decide(db, b, i, q, r, fault).Saved?
       case AdminWrite(c, i, q, commits) => c == b && AdminCommits(db, b, i, q, commits)
       case _ => false
  }

  function Bump(bookings: map<BookingId, Booking>, b: BookingId): map<BookingId, Booking> {
    if b in bookings then bookings[b := bookings[b].(revision := bookings[b].revision + 1)] else bookings
  }

  /** Bookings on or after `today` that select item `i`. */
  function Blockers(db: Db, i: ItemId, today: int): set<BookingId> {
    set b | b in db.bookings && (b, i) in db.selections && db.bookings[b].date >= today
  }

  predicate DeletesItem(db: Db, step: Step, i: ItemId) {
    && step.DeleteItem? && step.i == i && step.commits
    && i in db.items && Blockers(db, i, step.today) == {}
  }

  function Apply(db: Db, step: Step): Db {
    match step
    case CustomerWrite(b, i, q, r, fault) =>
      if Decide(db, b, i, q, r, fault).Saved?
      then db.(bookings := Bump(db.bookings, b), selections := Put(db.selections, b, i, q))
      else db
    case AdminWrite(b, i, q, commits) =>
      if AdminCommits(db, b, i, q, commits)
      then db.(bookings := Bump(db.bookings, b), selections := Put(db.selections, b, i, q))
      else db
    case ReadRevision(_) => db
    case ReadRows(_) => db
    case CreateBooking(date) =>
      db.(bookings := db.bookings[db.nextBooking := Booking(date, 0)], nextBooking := db.nextBooking + 1)
    case SetDate(b, date) =>
      if b in db.bookings then db.(bookings := db.bookings[b := db.bookings[b].(date := date)]) else db
    case DeleteBooking(b) =>
      db.(bookings := db.bookings - {b},
          selections := map k | k in db.selections && k.0 != b :: db.selections[k])
    case CreateItem(i, item) =>
      if i in db.items then db else db.(items := db.items[i := item])
    case UpdateItem(i, stock, visible) =>
      if i !in db.items then db
      else
        var current := db.items[i];
        db.(items := db.items[i := Item(
              if stock.Some? then stock.value else current.stock,
              if visible.Some? then visible.value else current.visible)])
    case DeleteItem(i, today, commits) =>
      if DeletesItem(db, step, i)
      then db.(items := db.items - {i},
               selections := map k | k in db.selections && k.1 != i :: db.selections[k])
      else db
  }

  // --------------------------------------------------- what each step comes to

  /** One row is absent for zero and holds the quantity otherwise; every other
      row is as it was. */
  ghost predicate RowSet(
    before: map<(BookingId, ItemId), nat>, after: map<(BookingId, ItemId), nat>, b: BookingId, i: ItemId, quantity: nat)
  {
    && ((b, i) in after <==> quantity > 0)
    && (quantity > 0 ==> after[(b, i)] == quantity)
    && (forall k :: k != (b, i) ==> (k in after <==> k in before))
    && (forall k :: k != (b, i) && k in before ==> after[k] == before[k])
  }

  /** One booking's revision is one higher; every other booking, and every date,
      is as it was. */
  ghost predicate RevisionUp(before: map<BookingId, Booking>, after: map<BookingId, Booking>, b: BookingId) {
    && (forall c :: c in after <==> c in before)
    && (forall c :: c in before ==>
          && after[c].date == before[c].date
          && after[c].revision == before[c].revision + (if c == b then 1 else 0))
  }

  /** The customer's write in terms of the tables: which answer under which
      circumstances, and what is then stored. */
  lemma CustomerWriteMeans(db: Db, b: BookingId, i: ItemId, quantity: nat, expected: nat, fault: Fault)
    ensures var code := Decide(db, b, i, quantity, expected, fault);
            var claimed := fault != AtClaim && b in db.bookings && db.bookings[b].revision == expected;
            var read := claimed && fault != AtItemRead;
            var writable := read && i in db.items && db.items[i].visible && quantity <= db.items[i].stock;
            && (code == Stale <==> fault != AtClaim && !claimed)
            && (code == NotFound <==> read && i !in db.items)
            && (code == Unavailable <==> read && i in db.items && !db.items[i].visible)
            && (code == OutOfRange <==> read && i in db.items && db.items[i].visible && quantity > db.items[i].stock)
            && (code == SaveFailed <==> fault == AtClaim || (claimed && !read) || (writable && fault == AtCommit))
            && (code == Saved <==> writable && fault != AtCommit)
            && code != Malformed
    ensures var after := Apply(db, CustomerWrite(b, i, quantity, expected, fault));
            if Decide(db, b, i, quantity, expected, fault) == Saved
            then && RowSet(db.selections, after.selections, b, i, quantity)
                 && RevisionUp(db.bookings, after.bookings, b)
                 && after.items == db.items && after.nextBooking == db.nextBooking
            else after == db
  {
  }

  /** The administrator's write stores the very quantity, whatever the stock and
      the visibility; or it does not commit and changes nothing. */
  lemma AdminWriteMeans(db: Db, b: BookingId, i: ItemId, quantity: nat, commits: bool)
    ensures var after := Apply(db, AdminWrite(b, i, quantity, commits));
            if commits && (quantity == 0 || (b in db.bookings && i in db.items))
            then && RowSet(db.selections, after.selections, b, i, quantity)
                 && RevisionUp(db.bookings, after.bookings, b)
                 && after.items == db.items && after.nextBooking == db.nextBooking
            else after == db
  {
  }

  /** The other steps on bookings: a new one with the next id, a date, a removal
      with exactly the booking's rows. */
  lemma BookingStepsMean(db: Db, b: BookingId, date: int)
    requires Integrity(db)
    ensures var after := Apply(db, CreateBooking(date));
            && (forall c :: c in after.bookings <==> c in db.bookings || c == db.nextBooking)
            && db.nextBooking !in db.bookings && after.bookings[db.nextBooking] == Booking(date, 0)
            && (forall c :: c in db.bookings ==> after.bookings[c] == db.bookings[c])
            && after.nextBooking == db.nextBooking + 1 && after.items == db.items && after.selections == db.selections
    ensures var after := Apply(db, SetDate(b, date));
            && (forall c :: c in after.bookings <==> c in db.bookings)
            && (forall c :: c in db.bookings ==>
                  && after.bookings[c].revision == db.bookings[c].revision
                  && after.bookings[c].date == if c == b then date else db.bookings[c].date)
            && after.items == db.items && after.selections == db.selections && after.nextBooking == db.nextBooking
    ensures var after := Apply(db, DeleteBooking(b));
            && (forall c :: c in after.bookings <==> c in db.bookings && c != b)
            && (forall c :: c in after.bookings ==> after.bookings[c] == db.bookings[c])
            && (forall k :: k in after.selections <==> k in db.selections && k.0 != b)
            && (forall k :: k in after.selections ==> after.selections[k] == db.selections[k])
            && after.items == db.items && after.nextBooking == db.nextBooking
  {
  }

  /** The steps on catalogue items: creation under a free id, and a change of
      stock, visibility, both or neither; baskets stay. */
  lemma ItemStepsMean(db: Db, i: ItemId, item: Item, stock: Option<nat>, visible: Option<bool>)
    ensures var after := Apply(db, CreateItem(i, item));
            && (forall j :: j in after.items <==> j in db.items || j == i)
            && (forall j :: j in db.items ==> after.items[j] == db.items[j])
            && (i !in db.items ==> after.items[i] == item)
            && after.bookings == db.bookings && after.selections == db.selections && after.nextBooking == db.nextBooking
    ensures var after := Apply(db, UpdateItem(i, stock, visible));
            && (forall j :: j in after.items <==> j in db.items)
            && (forall j :: j in db.items && j != i ==> after.items[j] == db.items[j])
            && (i in db.items ==>
                  && (stock.Some? ==> after.items[i].stock == stock.value)
                  && (stock.None? ==> after.items[i].stock == db.items[i].stock)
                  && (visible.Some? ==> after.items[i].visible == visible.value)
                  && (visible.None? ==> after.items[i].visible == db.items[i].visible))
            && after.bookings == db.bookings && after.selections == db.selections && after.nextBooking == db.nextBooking
  {
  }

  /** What the step's caller is told about booking `b`. */
  datatype Output = Decision(code: Code) | Revision(revision: Option<nat>) | Snapshot(rows: map<ItemId, Row>) | Silent

  function Answer(db: Db, step: Step): Output {
    match step
    case CustomerWrite(b, i, q, r, fault) => Decision(Decide(db, b, i, q, r, fault))
    case ReadRevision(b) => Revision(if b in db.bookings then Some(db.bookings[b].revision) else None)
    case ReadRows(b) => Snapshot(Rows(db.items, Basket(db, b)))
    case _ => Silent
  }

  /** The database after a run. */
  function Run(db: Db, steps: seq<Step>): Db {
    if steps == [] then db else Apply(Run(db, steps[..|steps| - 1]), steps[|steps| - 1])
  }

  lemma RunPrefix(db: Db, steps: seq<Step>, k: nat)
    requires k < |steps|
    ensures Run(db, steps[..k + 1]) == Apply(Run(db, steps[..k]), steps[k])
  {
    assert steps[..k + 1][..k] == steps[..k];
  }

  lemma {:induction false} RunConcat(db: Db, first: seq<Step>, second: seq<Step>)
    ensures Run(db, first + second) == Run(Run(db, first), second)
  {
    if second == [] {
      assert first + second == first;
    } else {
      var init := second[..|second| - 1];
      assert (first + second)[..|first + second| - 1] == first + init;
      RunConcat(db, first, init);
    }
  }

  /** Every step of every run keeps the schema's constraints. */
  lemma ApplyKeepsIntegrity(db: Db, step: Step)
    requires Integrity(db)
    ensures Integrity(Apply(db, step))
  {
  }

  lemma {:induction false} RunKeepsIntegrity(db: Db, steps: seq<Step>)
    requires Integrity(db)
    ensures Integrity(Run(db, steps))
  {
    if steps != [] {
      RunKeepsIntegrity(db, steps[..|steps| - 1]);
      ApplyKeepsIntegrity(Run(db, steps[..|steps| - 1]), steps[|steps| - 1]);
    }
  }
}

/** Whole-run properties of the write transactions: what a revision counts, what
    a matching revision guarantees about the basket, why an overrun exists, what
    item deletion may remove, and that bookings do not see one another. */
module Runs {
  import opened Wrappers
  import opened Database

  // ---------------------------------------------------------------- revisions

  /** How many steps of the run were accepted writes to `b`. */
  function AcceptedWrites(db: Db, steps: seq<Step>, b: BookingId): nat {
    if steps == [] then 0
    else
      var init := steps[..|steps| - 1];
      AcceptedWrites(db, init, b) + (if Accepts(Run(db, init), steps[|steps| - 1], b) then 1 else 0)
  }

  /** A revision is exactly the number of accepted writes since the booking was
      created, and a deleted booking's id never comes back. */
  lemma {:induction false} RevisionCountsAcceptedWrites(db: Db, steps: seq<Step>, b: BookingId)
    requires Integrity(db)
    ensures var end := Run(db, steps);
            var start := if b in db.bookings then db.bookings[b].revision else 0;
            && (b in end.bookings ==> end.bookings[b].revision == start + AcceptedWrites(db, steps, b))
            && (b >= end.nextBooking ==> b !in db.bookings && AcceptedWrites(db, steps, b) == 0)
            && (b < db.nextBooking && b !in db.bookings ==> b !in end.bookings)
            && db.nextBooking <= end.nextBooking
  {
    if steps != [] {
      var init := steps[..|steps| - 1];
      RevisionCountsAcceptedWrites(db, init, b);
      RunKeepsIntegrity(db, init);
    }
  }

  lemma {:induction false} SurvivorWasThereThroughout(db: Db, steps: seq<Step>, b: BookingId)
    requires Integrity(db) && b in db.bookings && b in Run(db, steps).bookings
    requires steps != []
    ensures b in Run(db, steps[..|steps| - 1]).bookings
    ensures db.bookings[b].revision <= Run(db, steps[..|steps| - 1]).bookings[b].revision
    ensures Run(db, steps[..|steps| - 1]).bookings[b].revision <= Run(db, steps).bookings[b].revision
  {
    var init := steps[..|steps| - 1];
    RevisionCountsAcceptedWrites(db, init, b);
    RunKeepsIntegrity(db, init);
  }

  // ------------------------------------------------- what a matching revision means

  /** Items that some step of the run deleted. */
  function Deleted(db: Db, steps: seq<Step>): set<ItemId> {
    if steps == [] then {}
    else
      var init := steps[..|steps| - 1];
      var last := steps[|steps| - 1];
      Deleted(db, init) + (if last.DeleteItem? && DeletesItem(Run(db, init), last, last.i) then {last.i} else {})
  }

  lemma RejectedStepKeepsBasket(db: Db, step: Step, b: BookingId)
    requires Integrity(db) && b in db.bookings && b in Apply(db, step).bookings
    requires !Accepts(db, step, b)
    ensures Basket(Apply(db, step), b) ==
            if step.DeleteItem? && DeletesItem(db, step, step.i) then Basket(db, b) - {step.i} else Basket(db, b)
  {
    match step
    case CustomerWrite(c, i, q, r, fault) =>
      if Decide(db, c, i, q, r, fault).Saved? { PutElsewhere(db, c, i, q, b); }
    case AdminWrite(c, i, q, commits) =>
      if AdminCommits(db, c, i, q, commits) { PutElsewhere(db, c, i, q, b); }
    case _ => OtherStepsKeepBasket(db, step, b);
  }

  lemma PutElsewhere(db: Db, c: BookingId, i: ItemId, q: nat, b: BookingId)
    requires c != b
    ensures Basket(db.(bookings := Bump(db.bookings, c), selections := Put(db.selections, c, i, q)), b) == Basket(db, b)
  {
    assert forall j :: (b, j) in Put(db.selections, c, i, q) <==> (b, j) in db.selections;
  }

  lemma OtherStepsKeepBasket(db: Db, step: Step, b: BookingId)
    requires Integrity(db) && b in Apply(db, step).bookings && b in db.bookings
    requires !step.CustomerWrite? && !step.AdminWrite?
    ensures Basket(Apply(db, step), b) ==
            if step.DeleteItem? && DeletesItem(db, step, step.i) then Basket(db, b) - {step.i} else Basket(db, b)
  {
    hide Blockers;
  }

  /** Equal revisions do not mean equal baskets: item deletion removes rows
      without touching the revision. This is the exact relation. */
  lemma {:induction false} SameRevisionSameBasketLessDeletions(db: Db, steps: seq<Step>, b: BookingId)
    requires Integrity(db) && b in db.bookings && b in Run(db, steps).bookings
    requires Run(db, steps).bookings[b].revision == db.bookings[b].revision
    ensures Basket(Run(db, steps), b) == Basket(db, b) - Deleted(db, steps)
  {
    hide Apply, Basket, Integrity, Accepts, DeletesItem;
    if steps != [] {
      var init := steps[..|steps| - 1];
      SurvivorWasThereThroughout(db, steps, b);
      SameRevisionSameBasketLessDeletions(db, init, b);
      RunKeepsIntegrity(db, init);
      SameRevisionMeansRejected(Run(db, init), steps[|steps| - 1], b);
      RejectedStepKeepsBasket(Run(db, init), steps[|steps| - 1], b);
    }
  }

  lemma SameRevisionMeansRejected(db: Db, step: Step, b: BookingId)
    requires b in db.bookings && b in Apply(db, step).bookings
    requires Apply(db, step).bookings[b].revision == db.bookings[b].revision
    ensures !Accepts(db, step, b)
  {
  }

  /** True if step `k` deleted item `i` while booking `b` was already past. */
  ghost predicate DeletedWhilePast(db: Db, steps: seq<Step>, k: nat, b: BookingId, i: ItemId) {
    && k < |steps|
    && DeletesItem(Run(db, steps[..k]), steps[k], i)
    && b in Run(db, steps[..k]).bookings
    && Run(db, steps[..k]).bookings[b].date < steps[k].today
  }

  /** Each row that went missing at an unchanged revision went because its item
      was deleted at a moment when the booking lay before the captured day. */
  lemma {:induction false} MissingRowWasPast(db: Db, steps: seq<Step>, b: BookingId, i: ItemId) returns (k: nat)
    requires Integrity(db) && b in db.bookings && b in Run(db, steps).bookings
    requires Run(db, steps).bookings[b].revision == db.bookings[b].revision
    requires i in Basket(db, b) && i in Deleted(db, steps)
    ensures DeletedWhilePast(db, steps, k, b, i)
  {
    var init := steps[..|steps| - 1];
    SurvivorWasThereThroughout(db, steps, b);
    if i in Deleted(db, init) {
      k := MissingRowWasPast(db, init, b, i);
      assert steps[..k] == init[..k];
    } else {
      k := |steps| - 1;
      SameRevisionSameBasketLessDeletions(db, init, b);
      var before := Run(db, init);
      assert i in Basket(before, b);
      if before.bookings[b].date >= steps[k].today {
        assert b in Blockers(before, i, steps[k].today);
      }
    }
  }

  /** A torn read is safe because the revision is read first: whatever other
      transactions ran between the two reads and the write, a write accepted at
      revision `r` is applied to the basket shown with `r`, less only rows that
      item deletion took from a booking already past. */
  lemma AcceptedWriteActsOnShownBasket(
    db: Db, steps: seq<Step>, b: BookingId, i: ItemId, q: nat, r: nat, fault: Fault, t1: nat, t2: nat, t3: nat)
    requires Integrity(db) && t1 <= t2 <= t3 < |steps|
    requires steps[t1] == ReadRevision(b) && Answer(Run(db, steps[..t1]), steps[t1]) == Revision(Some(r))
    requires steps[t2] == ReadRows(b)
    requires steps[t3] == CustomerWrite(b, i, q, r, fault)
    requires Answer(Run(db, steps[..t3]), steps[t3]) == Decision(Saved)
    ensures b in Run(db, steps[..t2]).bookings
    ensures var shown := Basket(Run(db, steps[..t2]), b);
            var kept := shown - Deleted(Run(db, steps[..t2]), steps[t2..t3]);
            && Answer(Run(db, steps[..t2]), steps[t2]) == Snapshot(Rows(Run(db, steps[..t2]).items, shown))
            && Basket(Run(db, steps[..t3]), b) == kept
            && Basket(Run(db, steps[..t3 + 1]), b) == (if q == 0 then kept - {i} else kept[i := q])
            && (forall j :: j in shown && j !in kept ==>
                  exists k :: DeletedWhilePast(Run(db, steps[..t2]), steps[t2..t3], k, b, j))
    ensures b in Run(db, steps[..t3 + 1]).bookings
    ensures Run(db, steps[..t3 + 1]).bookings[b].revision == r + 1
  {
    hide Apply, Run, Integrity, Basket, Rows, Decide, Deleted, DeletedWhilePast, AcceptedWrites;
    var atRevision, atRows, atWrite := Run(db, steps[..t1]), Run(db, steps[..t2]), Run(db, steps[..t3]);
    var toRows, toWrite := steps[t1..t2], steps[t2..t3];
    RunKeepsIntegrity(db, steps[..t1]);
    RunKeepsIntegrity(db, steps[..t2]);
    RunKeepsIntegrity(db, steps[..t3]);
    assert steps[..t1] + toRows == steps[..t2] && steps[..t2] + toWrite == steps[..t3];
    RunConcat(db, steps[..t1], toRows);
    RunConcat(db, steps[..t2], toWrite);
    RunPrefix(db, steps, t3);
    WriteMeetsRevision(atWrite, b, i, q, r, fault);
    WriteSetsOneRow(atWrite, b, i, q, r, fault);
    KnownBelowCounter(atRevision, b);
    RevisionCountsAcceptedWrites(atRevision, toRows, b);
    RevisionCountsAcceptedWrites(atRows, toWrite, b);
    SameRevisionSameBasketLessDeletions(atRows, toWrite, b);
    forall j | j in Basket(atRows, b) && j in Deleted(atRows, toWrite)
      ensures exists k :: DeletedWhilePast(atRows, toWrite, k, b, j)
    {
      var k := MissingRowWasPast(atRows, toWrite, b, j);
    }
  }

  lemma KnownBelowCounter(db: Db, b: BookingId)
    requires Integrity(db) && b in db.bookings
    ensures b < db.nextBooking
  {
  }

  lemma WriteMeetsRevision(db: Db, b: BookingId, i: ItemId, q: nat, r: nat, fault: Fault)
    requires Decide(db, b, i, q, r, fault).Saved?
    ensures b in db.bookings && db.bookings[b].revision == r
    ensures var after := Apply(db, CustomerWrite(b, i, q, r, fault));
            b in after.bookings && after.bookings[b].revision == r + 1
  {
  }

  lemma WriteSetsOneRow(db: Db, b: BookingId, i: ItemId, q: nat, r: nat, fault: Fault)
    requires Integrity(db) && Decide(db, b, i, q, r, fault).Saved?
    ensures Basket(Apply(db, CustomerWrite(b, i, q, r, fault)), b) ==
            (if q == 0 then Basket(db, b) - {i} else Basket(db, b)[i := q])
  {
  }

  /** Reading the rows first would not be safe: here an administrator writes
      between the reads, and the customer's write is accepted on a basket that
      was never shown. */
  lemma RowsBeforeRevisionWouldBeUnsafe() returns (db: Db, steps: seq<Step>)
    ensures Integrity(db) && |steps| == 4
    ensures steps[0] == ReadRows(0) && steps[2] == ReadRevision(0)
    ensures Answer(Run(db, steps[..2]), steps[2]) == Revision(Some(1))
    ensures steps[3] == CustomerWrite(0, 7, 2, 1, NoFault)
    ensures Answer(Run(db, steps[..3]), steps[3]) == Decision(Saved)
    ensures Deleted(db, steps) == {}
    ensures Basket(Run(db, steps[..3]), 0) != Basket(Run(db, steps[..0]), 0)
  {
    db := Small(0, map[]);
    steps := [ReadRows(0), AdminWrite(0, 8, 3, true), ReadRevision(0), CustomerWrite(0, 7, 2, 1, NoFault)];
    var written := Small(1, map[(0, 8) := 3]);
    SmallWrites();
    hide Small, Integrity, Basket, Deleted, Run, Answer;
    assert Run(db, steps[..0]) == db && Run(db, steps[..2]) == written && Run(db, steps[..3]) == written by {
      RunNothing(db, steps[..0]);
      RunPrefix(db, steps, 0);
      RunPrefix(db, steps, 1);
      RunPrefix(db, steps, 2);
      ReadsChangeNothing(db, written);
    }
    NoDeletions(db, steps);
  }

  function Small(revision: nat, selections: map<(BookingId, ItemId), nat>): Db {
    Db(map[0 := Booking(5, revision)], map[7 := Item(9, true), 8 := Item(9, true)], selections, 1)
  }

  lemma SmallWrites()
    ensures var before, after := Small(0, map[]), Small(1, map[(0, 8) := 3]);
            && Integrity(before) && Apply(before, AdminWrite(0, 8, 3, true)) == after
            && Answer(after, ReadRevision(0)) == Revision(Some(1))
            && Answer(after, CustomerWrite(0, 7, 2, 1, NoFault)) == Decision(Saved)
            && Basket(after, 0) != Basket(before, 0)
  {
    assert 8 in Basket(Small(1, map[(0, 8) := 3]), 0);
  }

  lemma RunNothing(db: Db, steps: seq<Step>)
    requires steps == []
    ensures Run(db, steps) == db
  {
  }

  lemma ReadsChangeNothing(db: Db, db': Db)
    ensures Apply(db, ReadRows(0)) == db && Apply(db', ReadRevision(0)) == db'
  {
  }

  lemma {:induction false} NoDeletions(db: Db, steps: seq<Step>)
    requires forall k :: 0 <= k < |steps| ==> !steps[k].DeleteItem?
    ensures Deleted(db, steps) == {}
  {
    if steps != [] { NoDeletions(db, steps[..|steps| - 1]); }
  }

  // ------------------------------------------------------------------ provenance

  /** A row that asks for more than the stock, or points at a hidden item. */
  predicate Overruns(db: Db, b: BookingId, i: ItemId) {
    && (b, i) in db.selections && i in db.items
    && (db.selections[(b, i)] > db.items[i].stock || !db.items[i].visible)
  }

  /** An administrator write of the row, a stock reduction, or a hide. */
  predicate Loosens(db: Db, step: Step, b: BookingId, i: ItemId) {
    match step
    case AdminWrite(c, j, q, commits) => c == b && j == i && q > 0 && AdminCommits(db, c, j, q, commits)
    case UpdateItem(j, stock, visible) =>
      && j == i && i in db.items
      && ((stock.Some? && stock.value < db.items[i].stock) || (visible == Some(false) && db.items[i].visible))
    case _ => false
  }

  predicate SavedByCustomer(db: Db, step: Step, b: BookingId, i: ItemId) {
    step.CustomerWrite? && step.b == b && step.i == i && Accepts(db, step, b)
  }

  /** Customers never create an overrun: the last customer write of an
      overrunning row is older than some administrator action that caused it. */
  lemma {:induction false} OverrunIsTheAdministrators(db: Db, steps: seq<Step>, b: BookingId, i: ItemId)
    returns (k: nat)
    requires Integrity(db) && !Overruns(db, b, i) && Overruns(Run(db, steps), b, i)
    ensures k < |steps| && Loosens(Run(db, steps[..k]), steps[k], b, i)
    ensures forall m :: k < m < |steps| ==> !SavedByCustomer(Run(db, steps[..m]), steps[m], b, i)
  {
    hide Apply, Overruns, Loosens, SavedByCustomer, Integrity;
    var last := |steps| - 1;
    var before := Run(db, steps[..last]);
    RunKeepsIntegrity(db, steps[..last]);
    OverrunStep(before, steps[last], b, i);
    if Overruns(before, b, i) {
      k := OverrunIsTheAdministrators(db, steps[..last], b, i);
      assert steps[..last][..k] == steps[..k];
      assert forall m :: k < m < last ==> steps[..last][..m] == steps[..m] && steps[..last][m] == steps[m];
    } else {
      k := last;
    }
  }

  lemma OverrunStep(db: Db, step: Step, b: BookingId, i: ItemId)
    requires Integrity(db) && Overruns(Apply(db, step), b, i)
    ensures !SavedByCustomer(db, step, b, i)
    ensures Overruns(db, b, i) || Loosens(db, step, b, i)
  {
  }

  /** A visible item's row may be reduced exactly to what is in stock: also a
      reduction is refused while it stays above the stock. */
  lemma ReductionNeedsStock(db: Db, b: BookingId, i: ItemId, q: nat)
    requires b in db.bookings && i in db.items && db.items[i].visible
    requires (b, i) in db.selections && q < db.selections[(b, i)]
    ensures var code := Decide(db, b, i, q, db.bookings[b].revision, NoFault);
            code == if q <= db.items[i].stock then Saved else OutOfRange
  {
  }

  /** Five held, the stock cut to three: the customer cannot go down to four. */
  lemma StockCutBlocksReduction() returns (db: Db, steps: seq<Step>)
    ensures Integrity(db) && |steps| == 2
    ensures steps[0] == UpdateItem(7, Some(3), None) && steps[1] == CustomerWrite(0, 7, 4, 0, NoFault)
    ensures Basket(Run(db, steps[..1]), 0) == map[7 := 5]
    ensures Answer(Run(db, steps[..1]), steps[1]) == Decision(OutOfRange)
  {
    db := Small(0, map[(0, 7) := 5]);
    steps := [UpdateItem(7, Some(3), None), CustomerWrite(0, 7, 4, 0, NoFault)];
    RunNothing(db, steps[..0]);
    RunPrefix(db, steps, 0);
  }

  // --------------------------------------------------------------- item deletion

  /** Deletion changes nothing, or removes the item and exactly its selections,
      each of which belongs to a booking dated before the captured day. */
  lemma DeletionRemovesOnlyPastSelections(db: Db, i: ItemId, today: int, commits: bool)
    requires Integrity(db)
    ensures var after := Apply(db, DeleteItem(i, today, commits));
            || after == db
            || (&& after.bookings == db.bookings
                && after.items == db.items - {i} && i in db.items
                && after.selections.Keys == (set k | k in db.selections && k.1 != i)
                && (forall k :: k in after.selections ==> after.selections[k] == db.selections[k])
                && (forall k :: k in db.selections && k !in after.selections ==> db.bookings[k.0].date < today))
  {
    forall k | k in db.selections && k.1 == i && db.bookings[k.0].date >= today
      ensures Blockers(db, i, today) != {}
    {
      assert (k.0, i) == k;
      assert k.0 in Blockers(db, i, today);
    }
  }

  /** Whatever ran since the day was captured, and however event dates were
      edited meanwhile, no selection that is current at commit time is lost. */
  lemma NoCurrentSelectionIsLost(db: Db, steps: seq<Step>, days: seq<int>, captured: nat, k: nat)
    requires Integrity(db) && |days| == |steps| && captured <= k < |steps|
    requires forall m, n :: 0 <= m <= n < |days| ==> days[m] <= days[n]
    requires steps[k].DeleteItem? && steps[k].today == days[captured]
    ensures var before := Run(db, steps[..k]);
            var after := Run(db, steps[..k + 1]);
            forall s :: s in before.selections && s.0 in before.bookings && before.bookings[s.0].date >= days[k] ==>
              s in after.selections && after.selections[s] == before.selections[s]
  {
    RunPrefix(db, steps, k);
    RunKeepsIntegrity(db, steps[..k]);
    DeletionRemovesOnlyPastSelections(Run(db, steps[..k]), steps[k].i, steps[k].today, steps[k].commits);
  }

  // ---------------------------------------------------------------- independence

  /** The database with every booking but `b` erased. */
  function Solo(db: Db, b: BookingId): Db {
    Db(map c | c in db.bookings && c == b :: db.bookings[c],
       db.items,
       map k | k in db.selections && k.0 == b :: db.selections[k],
       b + 1)
  }

  predicate Concerns(step: Step, b: BookingId) {
    match step
    case CustomerWrite(c, _, _, _, _) => c == b
    case AdminWrite(c, _, _, _) => c == b
    case ReadRevision(c) => c == b
    case ReadRows(c) => c == b
    case SetDate(c, _) => c == b
    case DeleteBooking(c) => c == b
    case _ => false
  }

  /** What a step is to booking `b`: its own steps, catalogue changes that took
      place, and nothing else. Only here may other bookings matter, because they
      can keep an item from being deleted. */
  function Project(db: Db, step: Step, b: BookingId): seq<Step> {
    if Concerns(step, b) || step.CreateItem? || step.UpdateItem? then [step]
    else if step.DeleteItem? && DeletesItem(db, step, step.i) then [step]
    else []
  }

  function ProjectRun(db: Db, steps: seq<Step>, b: BookingId): seq<Step> {
    if steps == [] then []
    else
      var init := steps[..|steps| - 1];
      ProjectRun(db, init, b) + Project(Run(db, init), steps[|steps| - 1], b)
  }

  /** Everything booking `b` is told during the run. */
  function Answers(db: Db, steps: seq<Step>, b: BookingId): seq<Output> {
    if steps == [] then []
    else
      var init := steps[..|steps| - 1];
      var last := steps[|steps| - 1];
      Answers(db, init, b) + (if Concerns(last, b) then [Answer(Run(db, init), last)] else [])
  }

  lemma SoloBasket(db: Db, b: BookingId)
    ensures Basket(Solo(db, b), b) == Basket(db, b)
  {
  }

  lemma OwnWriteOnSolo(db: Db, i: ItemId, q: nat, b: BookingId)
    requires Integrity(db)
    ensures var after := db.(bookings := Bump(db.bookings, b), selections := Put(db.selections, b, i, q));
            var solo := Solo(db, b);
            Solo(after, b) == solo.(bookings := Bump(solo.bookings, b), selections := Put(solo.selections, b, i, q))
  {
  }

  lemma DecisionOnSolo(db: Db, b: BookingId, i: ItemId, q: nat, r: nat, fault: Fault)
    ensures Decide(Solo(db, b), b, i, q, r, fault) == Decide(db, b, i, q, r, fault)
  {
  }

  lemma OwnBookingOnSolo(db: Db, step: Step, b: BookingId)
    requires step == DeleteBooking(b) || (step.SetDate? && step.b == b)
    ensures Solo(Apply(db, step), b) == Apply(Solo(db, b), step)
  {
    var local, shared := Apply(Solo(db, b), step), Solo(Apply(db, step), b);
    assert local.bookings == shared.bookings;
    assert local.selections == shared.selections;
  }

  lemma OwnStepOnSolo(db: Db, step: Step, b: BookingId)
    requires Integrity(db) && Concerns(step, b)
    ensures Solo(Apply(db, step), b) == Apply(Solo(db, b), step)
    ensures Answer(db, step) == Answer(Solo(db, b), step)
  {
    match step
    case CustomerWrite(_, i, q, r, fault) =>
      OwnWriteOnSolo(db, i, q, b);
      DecisionOnSolo(db, b, i, q, r, fault);
    case AdminWrite(_, i, q, commits) =>
      OwnWriteOnSolo(db, i, q, b);
      assert AdminCommits(db, b, i, q, commits) == AdminCommits(Solo(db, b), b, i, q, commits);
    case ReadRevision(_) =>
    case ReadRows(_) => SoloBasket(db, b);
    case _ => OwnBookingOnSolo(db, step, b);
  }

  lemma ForeignWriteOnSolo(db: Db, c: BookingId, i: ItemId, q: nat, b: BookingId)
    requires c != b
    ensures var after := db.(bookings := Bump(db.bookings, c), selections := Put(db.selections, c, i, q));
            Solo(after, b) == Solo(db, b)
  {
  }

  lemma ForeignStepOnSolo(db: Db, step: Step, b: BookingId)
    requires Integrity(db) && b < db.nextBooking
    requires !Concerns(step, b) && !step.CreateItem? && !step.UpdateItem? && !step.DeleteItem?
    ensures Solo(Apply(db, step), b) == Solo(db, b)
  {
    match step
    case CustomerWrite(c, i, q, _, _) => ForeignWriteOnSolo(db, c, i, q, b);
    case AdminWrite(c, i, q, _) => ForeignWriteOnSolo(db, c, i, q, b);
    case _ =>
  }

  lemma DeletionOnSolo(db: Db, step: Step, b: BookingId)
    requires Integrity(db) && step.DeleteItem? && DeletesItem(db, step, step.i)
    ensures Solo(Apply(db, step), b) == Apply(Solo(db, b), step)
  {
    var solo := Solo(db, b);
    assert Blockers(solo, step.i, step.today) <= Blockers(db, step.i, step.today);
    assert DeletesItem(solo, step, step.i);
    assert Solo(Apply(db, step), b).selections == Apply(solo, step).selections;
  }

  lemma StepOnSolo(db: Db, step: Step, b: BookingId)
    requires Integrity(db) && b < db.nextBooking
    ensures var local := Project(db, step, b);
            Solo(Apply(db, step), b) == if local == [] then Solo(db, b) else Apply(Solo(db, b), step)
    ensures Concerns(step, b) ==> Answer(db, step) == Answer(Solo(db, b), step)
    ensures b < Apply(db, step).nextBooking
  {
    if Concerns(step, b) {
      OwnStepOnSolo(db, step, b);
    } else if step.DeleteItem? && DeletesItem(db, step, step.i) {
      DeletionOnSolo(db, step, b);
    } else if !step.CreateItem? && !step.UpdateItem? && !step.DeleteItem? {
      ForeignStepOnSolo(db, step, b);
    }
  }

  /** A booking's life in the shared database is its life alone in a database
      that receives only its own steps and the catalogue's. */
  lemma {:induction false} RunOnSolo(db: Db, steps: seq<Step>, b: BookingId)
    requires Integrity(db) && b < db.nextBooking
    ensures Solo(Run(db, steps), b) == Run(Solo(db, b), ProjectRun(db, steps, b))
    ensures Answers(db, steps, b) == Answers(Solo(db, b), ProjectRun(db, steps, b), b)
    ensures b < Run(db, steps).nextBooking
  {
    if steps != [] {
      var init, last := steps[..|steps| - 1], steps[|steps| - 1];
      RunOnSolo(db, init, b);
      RunKeepsIntegrity(db, init);
      StepOnSolo(Run(db, init), last, b);
      var local, here := ProjectRun(db, init, b), Project(Run(db, init), last, b);
      if here == [] {
        assert local + here == local;
      } else {
        assert (local + here)[..|local + here| - 1] == local;
      }
    }
  }

  /** The two-run form: whatever other bookings do, booking `b` gets the same
      answers and keeps the same revision, date and selections. */
  lemma BookingsAreIndependent(db: Db, db': Db, steps: seq<Step>, steps': seq<Step>, b: BookingId)
    requires Integrity(db) && Integrity(db') && b < db.nextBooking && b < db'.nextBooking
    requires Solo(db, b) == Solo(db', b)
    requires ProjectRun(db, steps, b) == ProjectRun(db', steps', b)
    ensures Answers(db, steps, b) == Answers(db', steps', b)
    ensures b in Run(db, steps).bookings <==> b in Run(db', steps').bookings
    ensures b in Run(db, steps).bookings ==> Run(db, steps).bookings[b] == Run(db', steps').bookings[b]
    ensures Basket(Run(db, steps), b) == Basket(Run(db', steps'), b)
  {
    RunOnSolo(db, steps, b);
    RunOnSolo(db', steps', b);
    var end, end' := Run(db, steps), Run(db', steps');
    SoloBasket(end, b);
    SoloBasket(end', b);
    assert b in end.bookings <==> b in Solo(end, b).bookings;
    assert b in end'.bookings <==> b in Solo(end', b).bookings;
    assert b in end.bookings ==> Solo(end, b).bookings[b] == end.bookings[b];
    assert b in end'.bookings ==> Solo(end', b).bookings[b] == end'.bookings[b];
  }
}

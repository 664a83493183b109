/** The request handlers that write the database, statement by statement and
    with their rollbacks, each proved to be one atomic step of module Database. */
module Handlers {
  import opened Wrappers
  import opened Database
  import opened Numbers

  datatype Reply = InvalidRequest | Answered(code: Code)

  datatype Deletion = Removed | Blocked | Missing | Failed

  /** Selections left after the statement that drops an item's past rows. */
  function WithoutPast(db: Db, i: ItemId, today: int): map<(BookingId, ItemId), nat> {
    map k | k in db.selections && !(k.1 == i && k.0 in db.bookings && db.bookings[k.0].date < today) ::
      db.selections[k]
  }

  /** What the schema's ON DELETE CASCADE removes with an item. */
  function Cascade(selections: map<(BookingId, ItemId), nat>, i: ItemId): map<(BookingId, ItemId), nat> {
    map k | k in selections && k.1 != i :: selections[k]
  }

  /** Once past rows are gone and no booking blocks, the cascade on the item
      row has nothing left to remove; while a booking blocks, it would. */
  lemma CascadeIsVacuousExactlyWhenUnblocked(db: Db, i: ItemId, today: int)
    requires Integrity(db)
    ensures Cascade(WithoutPast(db, i, today), i) == WithoutPast(db, i, today) <==> Blockers(db, i, today) == {}
  {
    var rest := WithoutPast(db, i, today);
    if Blockers(db, i, today) == {} {
      forall k | k in rest ensures k.1 != i {
        assert k.1 == i ==> (k.0, i) == k;
        assert k.1 == i ==> k.0 in Blockers(db, i, today);
      }
      assert Cascade(rest, i) == rest;
    } else {
      var b :| b in Blockers(db, i, today);
      assert (b, i) in rest && (b, i) !in Cascade(rest, i);
    }
  }

  const MAX_BOOKING_CODE_RETRIES: nat := 10

  type Digests = map<BookingId, string>
  type Sessions = map<nat, Option<BookingId>>

  /** Unique access-code digests, and the sessions' foreign key. */
  ghost predicate Linked(bookings: set<BookingId>, digests: Digests, sessions: Sessions) {
    && digests.Keys == bookings
    && (forall b, c :: b in digests && c in digests && digests[b] == digests[c] ==> b == c)
    && (forall k :: k in sessions && sessions[k].Some? ==> sessions[k].value in bookings)
  }

  function WithoutSessions(sessions: Sessions, b: BookingId): Sessions {
    map k | k in sessions && sessions[k] != Some(b) :: sessions[k]
  }

  lemma UnlinkBooking(bookings: set<BookingId>, digests: Digests, sessions: Sessions, b: BookingId)
    requires Linked(bookings, digests, sessions)
    ensures Linked(bookings - {b}, digests - {b}, WithoutSessions(sessions, b))
  {
  }

  /** The tables of module Database, and two the runs do not need: each
      booking's access-code digest, and the web sessions with the booking of a
      customer's session (an administrator's has none). */
  class Store {
    var bookings: map<BookingId, Booking>
    var items: map<ItemId, Item>
    var selections: map<(BookingId, ItemId), nat>
    var nextBooking: nat
    var digests: Digests
    var sessions: Sessions

    ghost function State(): Db
      reads this
    {
      Db(bookings, items, selections, nextBooking)
    }

    /** All constraints. */
    ghost predicate Valid()
      reads this
    {
      Integrity(State()) && Linked(bookings.Keys, digests, sessions)
    }

    constructor ()
      ensures Valid() && State() == Db(map[], map[], map[], 0) && sessions == map[]
    {
      bookings, items, selections, nextBooking, digests, sessions := map[], map[], map[], 0, map[], map[];
    }

    /** replace_selection: delete, insert or update one row. */
    method ReplaceSelection(b: BookingId, i: ItemId, quantity: nat)
      modifies this`selections
      ensures (b, i) in selections <==> quantity > 0
      ensures quantity > 0 ==> selections[(b, i)] == quantity
      ensures selections - {(b, i)} == old(selections) - {(b, i)}
    {
      if quantity == 0 {
        if (b, i) in selections {
          selections := selections - {(b, i)};
        }
        return;
      }
      if (b, i) !in selections {
        selections := selections + map[(b, i) := quantity];
        return;
      }
      selections := selections[(b, i) := quantity];
    }

    /** The customer's autosave request: parse, claim the revision, check the
        item inside the same transaction, write, commit. */
    method SelectionUpdate(b: BookingId, i: ItemId, quantityRaw: string, revisionRaw: string, fault: Fault)
      returns (reply: Reply)
      requires Valid()
      modifies this`bookings, this`selections
      ensures Valid()
      ensures reply.InvalidRequest? <==> ParseQuantity(quantityRaw).Err? || ParseRevision(revisionRaw).Err?
      ensures reply != Answered(Saved) ==> State() == old(State())
      ensures !reply.InvalidRequest? ==>
                var q, r := ParseQuantity(quantityRaw).value, ParseRevision(revisionRaw).value;
                var claimed := fault != AtClaim && b in old(bookings) && old(bookings)[b].revision == r;
                var read := claimed && fault != AtItemRead;
                var writable := read && i in items && items[i].visible && q <= items[i].stock;
                && State() == Apply(old(State()), CustomerWrite(b, i, q, r, fault))
                && reply.code == Decide(old(State()), b, i, q, r, fault)
                && (reply.code == Stale <==> fault != AtClaim && !claimed)
                && (reply.code == NotFound <==> read && i !in items)
                && (reply.code == Unavailable <==> read && i in items && !items[i].visible)
                && (reply.code == OutOfRange <==> read && i in items && items[i].visible && q > items[i].stock)
                && (reply.code == SaveFailed <==>
                      fault == AtClaim || (claimed && !read) || (writable && fault == AtCommit))
                && (reply.code == Saved <==> writable && fault != AtCommit)
                && (reply.code == Saved ==>
                      && RowSet(old(selections), selections, b, i, q)
                      && RevisionUp(old(bookings), bookings, b))
    {
      hide Linked, RowSet, RevisionUp, Integrity, ParseQuantity, ParseRevision;
      var quantity, expected := ParseQuantity(quantityRaw), ParseRevision(revisionRaw);
      if quantity.Err? || expected.Err? {
        return InvalidRequest;
      }
      CustomerWriteMeans(State(), b, i, quantity.value, expected.value, fault);
      var bookingsBefore, selectionsBefore := bookings, selections;
      if fault == AtClaim {
        return Answered(SaveFailed);
      }
      var claimed := 0;
      if b in bookings && bookings[b].revision == expected.value {
        bookings := bookings[b := bookings[b].(revision := bookings[b].revision + 1)];
        claimed := 1;
      }
      if claimed != 1 {
        bookings := bookingsBefore;
        return Answered(Stale);
      }
      if fault == AtItemRead {
        bookings := bookingsBefore;
        return Answered(SaveFailed);
      }
      if i !in items {
        bookings := bookingsBefore;
        return Answered(NotFound);
      }
      if !items[i].visible {
        bookings := bookingsBefore;
        return Answered(Unavailable);
      }
      if quantity.value > items[i].stock {
        bookings := bookingsBefore;
        return Answered(OutOfRange);
      }
      ReplaceSelection(b, i, quantity.value);
      if fault == AtCommit {
        bookings, selections := bookingsBefore, selectionsBefore;
        return Answered(SaveFailed);
      }
      PutIsReplace(selectionsBefore, selections, b, i, quantity.value);
      assert bookings.Keys == bookingsBefore.Keys;
      ApplyKeepsIntegrity(old(State()), CustomerWrite(b, i, quantity.value, expected.value, fault));
      return Answered(Saved);
    }

    /** The administrator's write: unconditional, but it moves the revision, so
        no customer can act on a basket that was shown before it. */
    method BookingSelectionUpdate(b: BookingId, i: ItemId, quantity: nat, commits: bool) returns (committed: bool)
      requires Valid()
      modifies this`bookings, this`selections
      ensures Valid()
      ensures State() == Apply(old(State()), AdminWrite(b, i, quantity, commits))
      ensures committed <==> commits && (quantity == 0 || (b in old(bookings) && i in old(items)))
      ensures committed ==>
                && RowSet(old(selections), selections, b, i, quantity)
                && RevisionUp(old(bookings), bookings, b)
      ensures !committed ==> State() == old(State())
    {
      hide Linked, RowSet, RevisionUp;
      AdminWriteMeans(State(), b, i, quantity, commits);
      var bookingsBefore, selectionsBefore := bookings, selections;
      if b in bookings {
        bookings := bookings[b := bookings[b].(revision := bookings[b].revision + 1)];
      }
      assert bookings.Keys == bookingsBefore.Keys;
      ReplaceSelection(b, i, quantity);
      PutIsReplace(selectionsBefore, selections, b, i, quantity);
      var orphan := quantity > 0 && (b !in bookings || i !in items);
      if orphan || !commits {
        bookings, selections := bookingsBefore, selectionsBefore;
        return false;
      }
      ApplyKeepsIntegrity(old(State()), AdminWrite(b, i, quantity, commits));
      return true;
    }

    /** The rows of a reply: the items joined with the booking's selections, in
        the listing's order, leaving out what is neither visible nor selected. */
    method BasketItems(b: BookingId, listing: seq<ItemId>) returns (rows: map<ItemId, Row>)
      requires Valid() && forall i :: i in items <==> i in listing
      ensures forall i :: i in rows <==> i in items && (items[i].visible || (b, i) in selections)
      ensures forall i :: i in rows ==>
                && rows[i].quantity == (if (b, i) in selections then selections[(b, i)] else 0)
                && rows[i].stock == items[i].stock && rows[i].available == items[i].visible
      ensures rows == Rows(items, Basket(State(), b))
    {
      rows := map[];
      for n := 0 to |listing|
        invariant forall i :: i in rows <==>
                    i in listing[..n] && i in items && (items[i].visible || (b, i) in selections)
        invariant forall i :: i in rows ==>
                    && rows[i].quantity == (if (b, i) in selections then selections[(b, i)] else 0)
                    && rows[i].stock == items[i].stock && rows[i].available == items[i].visible
      {
        var i := listing[n];
        assert i in listing;
        var selected := (b, i) in selections;
        if items[i].visible || selected {
          rows := rows[i := Row(if selected then selections[(b, i)] else 0, items[i].stock, items[i].visible)];
        }
      }
      assert listing[..|listing|] == listing;
    }

    /** The write transaction of item deletion, run under the snapshot lock with
        the day captured before the lock was requested. */
    method ItemDelete(i: ItemId, today: int, commits: bool) returns (outcome: Deletion)
      requires Valid()
      modifies this`items, this`selections
      ensures Valid()
      ensures State() == Apply(old(State()), DeleteItem(i, today, commits))
      ensures outcome.Missing? <==> i !in old(items)
      ensures outcome.Blocked? <==> i in old(items) && Blockers(old(State()), i, today) != {}
      ensures outcome.Removed? <==> DeletesItem(old(State()), DeleteItem(i, today, commits), i)
      ensures outcome.Removed? ==> selections == WithoutPast(old(State()), i, today)
      ensures outcome.Removed? ==>
                && (forall j :: j in items <==> j in old(items) && j != i)
                && (forall j :: j in items ==> items[j] == old(items)[j])
                && (forall k :: k in selections <==> k in old(selections) && k.1 != i)
                && (forall k :: k in selections ==> selections[k] == old(selections)[k])
      ensures !outcome.Removed? ==> State() == old(State())
    {
      hide Linked;
      if i !in items {
        return Missing;
      }
      var itemsBefore, selectionsBefore := items, selections;
      selections := map k | k in selections && !(k.1 == i && k.0 in bookings && bookings[k.0].date < today) ::
        selections[k];
      var blocking := set b | b in bookings && (b, i) in selections && bookings[b].date >= today;
      assert blocking == Blockers(old(State()), i, today);
      if blocking != {} {
        selections := selectionsBefore;
        return Blocked;
      }
      CascadeIsVacuousExactlyWhenUnblocked(old(State()), i, today);
      items := items - {i};
      selections := Cascade(selections, i);
      if !commits {
        items, selections := itemsBefore, selectionsBefore;
        return Failed;
      }
      assert selections == Cascade(selectionsBefore, i);
      ApplyKeepsIntegrity(old(State()), DeleteItem(i, today, commits));
      return Removed;
    }

    /** Deleting a booking takes its whole basket, its code and its sessions, and
        nothing else; or the whole transaction rolls back. */
    method BookingDelete(b: BookingId, commits: bool) returns (deleted: bool)
      requires Valid()
      modifies this`bookings, this`selections, this`digests, this`sessions
      ensures Valid()
      ensures State() == if deleted then Apply(old(State()), DeleteBooking(b)) else old(State())
      ensures deleted <==> b in old(bookings) && commits
      ensures digests == if deleted then old(digests) - {b} else old(digests)
      ensures sessions == if deleted then WithoutSessions(old(sessions), b) else old(sessions)
      ensures deleted ==>
                && (forall c :: c in bookings <==> c in old(bookings) && c != b)
                && (forall k :: k in selections <==> k in old(selections) && k.0 != b)
                && (forall k :: k in sessions <==> k in old(sessions) && old(sessions)[k] != Some(b))
    {
      hide Linked, Integrity;
      if b !in bookings {
        return false;
      }
      var bookingsBefore, selectionsBefore := bookings, selections;
      var digestsBefore, sessionsBefore := digests, sessions;
      sessions := WithoutSessions(sessions, b);
      bookings, digests := bookings - {b}, digests - {b};
      selections := map k | k in selections && k.0 != b :: selections[k];
      if !commits {
        bookings, selections, digests, sessions := bookingsBefore, selectionsBefore, digestsBefore, sessionsBefore;
        return false;
      }
      ApplyKeepsIntegrity(old(State()), DeleteBooking(b));
      UnlinkBooking(bookingsBefore.Keys, digestsBefore, sessionsBefore, b);
      assert bookings.Keys == bookingsBefore.Keys - {b};
      return true;
    }

    /** Creating a booking: up to ten codes are tried. An attempt whose digest is
        taken rolls back and tries the next code; any other failure, at the
        attempt `fault`, rolls back and gives up. The new booking takes the next
        id for good and starts at revision 0. */
    method BookingCreate(date: int, codes: seq<string>, fault: int) returns (created: Option<BookingId>)
      requires Valid() && |codes| == MAX_BOOKING_CODE_RETRIES
      modifies this`bookings, this`nextBooking, this`digests
      ensures Valid()
      ensures created.Some? <==>
                exists k :: 0 <= k < |codes| && FirstFree(codes, old(digests).Values, k) && !(0 <= fault <= k)
      ensures created.None? ==> State() == old(State()) && digests == old(digests)
      ensures created.Some? ==>
                && State() == Apply(old(State()), CreateBooking(date))
                && created.value !in old(bookings) && created.value in bookings
                && bookings[created.value] == Booking(date, 0) && Basket(State(), created.value) == map[]
                && exists k :: 0 <= k < |codes| && FirstFree(codes, old(digests).Values, k)
                               && digests == old(digests)[created.value := codes[k]]
    {
      for attempt := 0 to |codes|
        invariant Valid() && State() == old(State()) && digests == old(digests)
        invariant forall j :: 0 <= j < attempt ==> codes[j] in digests.Values
        invariant !(0 <= fault < attempt)
      {
        if attempt == fault {
          return None;
        }
        if codes[attempt] !in digests.Values {
          var b := nextBooking;
          assert FirstFree(codes, old(digests).Values, attempt);
          bookings := bookings[b := Booking(date, 0)];
          digests := digests[b := codes[attempt]];
          nextBooking := nextBooking + 1;
          ApplyKeepsIntegrity(old(State()), CreateBooking(date));
          return Some(b);
        }
      }
      return None;
    }
  }

  /** The first code whose digest is not taken. */
  predicate FirstFree(codes: seq<string>, taken: set<string>, k: nat) {
    && k < |codes| && codes[k] !in taken
    && forall j :: 0 <= j < k ==> codes[j] in taken
  }

  lemma PutIsReplace(
    before: map<(BookingId, ItemId), nat>, after: map<(BookingId, ItemId), nat>, b: BookingId, i: ItemId, q: nat)
    requires (b, i) in after <==> q > 0
    requires q > 0 ==> after[(b, i)] == q
    requires after - {(b, i)} == before - {(b, i)}
    ensures after == Put(before, b, i, q)
  {
    forall k | k != (b, i)
      ensures k in after <==> k in before
      ensures k in after ==> after[k] == before[k]
    {
      assert k in after <==> k in after - {(b, i)};
      assert k in before <==> k in before - {(b, i)};
      assert k in after ==> (after - {(b, i)})[k] == (before - {(b, i)})[k];
    }
    assert after.Keys == Put(before, b, i, q).Keys;
  }
}

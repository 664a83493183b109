/** The administrator's booking list: three grouped queries over all bookings at
    once, merged into one table of totals, against the meaning of a total for
    one booking's own basket; and the totals of a basket snapshot. */
module Totals {
  import opened Database

  datatype Selection = Selection(b: BookingId, i: ItemId, quantity: nat)

  datatype BookingListTotals = BookingListTotals(itemTypes: nat, units: nat, negative: bool, hidden: bool)

  // ---------------------------------------------------------- what a total means

  /** The units of a basket, whatever the order they are added in. */
  ghost function Units(basket: map<ItemId, nat>): nat
    decreases |basket|
  {
    if basket == map[] then 0
    else
      assert basket.Keys != {} by { assert exists i :: i in basket; }
      var i :| i in basket;
      assert (basket - {i}).Keys == basket.Keys - {i};
      basket[i] + Units(basket - {i})
  }

  lemma {:induction false} UnitsLess(basket: map<ItemId, nat>, i: ItemId)
    requires i in basket
    ensures Units(basket) == basket[i] + Units(basket - {i})
    decreases |basket|
  {
    var j :| j in basket && Units(basket) == basket[j] + Units(basket - {j});
    if i != j {
      assert |(basket - {j}).Keys| == |basket.Keys - {j}| < |basket|;
      UnitsLess(basket - {j}, i);
      assert |(basket - {i}).Keys| == |basket.Keys - {i}| < |basket|;
      UnitsLess(basket - {i}, j);
      assert basket - {j} - {i} == basket - {i} - {j};
    }
  }

  lemma BasketGrows(basket: map<ItemId, nat>, i: ItemId, quantity: nat)
    requires i !in basket
    ensures |basket[i := quantity]| == |basket| + 1
    ensures Units(basket[i := quantity]) == Units(basket) + quantity
  {
    var grown := basket[i := quantity];
    assert grown.Keys == basket.Keys + {i};
    assert grown - {i} == basket;
    UnitsLess(grown, i);
  }

  ghost predicate Negative(db: Db, b: BookingId) {
    exists i :: i in Basket(db, b) && Basket(db, b)[i] > db.items[i].stock
  }

  ghost predicate Hidden(db: Db, b: BookingId) {
    exists i :: i in Basket(db, b) && !db.items[i].visible
  }

  // -------------------------------------------------------------- the queries

  /** `table` holds the rows of booking_selections in some order. */
  ghost predicate Holds(table: seq<Selection>, db: Db) {
    && Distinct(table)
    && (forall k :: 0 <= k < |table| ==>
          (table[k].b, table[k].i) in db.selections && db.selections[(table[k].b, table[k].i)] == table[k].quantity)
    && (forall key :: key in db.selections ==> Selection(key.0, key.1, db.selections[key]) in table)
  }

  datatype Group = Group(itemTypes: nat, units: nat)

  /** SELECT booking_id, count(*), sum(selected_quantity) ... GROUP BY booking_id:
      one pass over the table that keeps a running group per booking, listed
      in an order of the database's choosing. */
  method CountRows(table: seq<Selection>, ids: set<BookingId>) returns (groups: map<BookingId, Group>)
    ensures forall b :: b in groups <==> b in ids && GroupOf(table, b).itemTypes > 0
    ensures forall b :: b in groups ==> groups[b] == GroupOf(table, b)
  {
    groups := map[];
    for k := 0 to |table|
      invariant forall b :: b in groups <==> b in ids && GroupOf(table[..k], b).itemTypes > 0
      invariant forall b :: b in groups ==> groups[b] == GroupOf(table[..k], b)
    {
      var row := table[k];
      NextRow(table, k);
      if row.b in ids {
        var g := if row.b in groups then groups[row.b] else Group(0, 0);
        groups := groups[row.b := Group(g.itemTypes + 1, g.units + row.quantity)];
      }
    }
    assert table[..|table|] == table;
  }

  /** The rows of one booking among the first ones of the table. */
  function BasketOf(table: seq<Selection>, b: BookingId): map<ItemId, nat> {
    if table == [] then map[]
    else
      var init, row := BasketOf(table[..|table| - 1], b), table[|table| - 1];
      if row.b == b then init[row.i := row.quantity] else init
  }

  function GroupOf(table: seq<Selection>, b: BookingId): (g: Group)
    ensures g.itemTypes == 0 ==> g.units == 0
  {
    if table == [] then Group(0, 0)
    else
      var init, row := GroupOf(table[..|table| - 1], b), table[|table| - 1];
      if row.b == b then Group(init.itemTypes + 1, init.units + row.quantity) else init
  }

  lemma NextRow(table: seq<Selection>, k: nat)
    requires k < |table|
    ensures forall b :: GroupOf(table[..k + 1], b) ==
                        var g := GroupOf(table[..k], b);
                        if table[k].b == b then Group(g.itemTypes + 1, g.units + table[k].quantity) else g
  {
    assert table[..k + 1][..k] == table[..k];
  }

  /** SELECT booking_id ... JOIN inventory_items ... WHERE: the bookings with a
      row above its item's stock. */
  method NegativeIds(table: seq<Selection>, items: map<ItemId, Item>, ids: set<BookingId>)
    returns (negative: set<BookingId>)
    ensures forall b :: b in negative <==>
                        b in ids && exists k :: 0 <= k < |table| && table[k].b == b && table[k].i in items
                                                && table[k].quantity > items[table[k].i].stock
  {
    negative := {};
    for n := 0 to |table|
      invariant forall b :: b in negative <==>
                            b in ids && exists k :: 0 <= k < n && table[k].b == b && table[k].i in items
                                                    && table[k].quantity > items[table[k].i].stock
    {
      var row := table[n];
      if row.b in ids && row.i in items && row.quantity > items[row.i].stock {
        negative := negative + {row.b};
      }
    }
  }

  /** The same join for rows on hidden items. */
  method HiddenIds(table: seq<Selection>, items: map<ItemId, Item>, ids: set<BookingId>)
    returns (hidden: set<BookingId>)
    ensures forall b :: b in hidden <==>
                        b in ids && exists k :: 0 <= k < |table| && table[k].b == b && table[k].i in items
                                                && !items[table[k].i].visible
  {
    hidden := {};
    for n := 0 to |table|
      invariant forall b :: b in hidden <==>
                            b in ids && exists k :: 0 <= k < n && table[k].b == b && table[k].i in items
                                                    && !items[table[k].i].visible
    {
      var row := table[n];
      if row.b in ids && row.i in items && !items[row.i].visible {
        hidden := hidden + {row.b};
      }
    }
  }

  ghost predicate Distinct(table: seq<Selection>) {
    forall j, k :: 0 <= j < k < |table| ==> (table[j].b, table[j].i) != (table[k].b, table[k].i)
  }

  lemma {:induction false} RowIsEntry(table: seq<Selection>, b: BookingId, i: ItemId)
    requires Distinct(table)
    ensures i in BasketOf(table, b) <==> exists k :: 0 <= k < |table| && table[k].b == b && table[k].i == i
    ensures forall k :: 0 <= k < |table| && table[k].b == b && table[k].i == i ==>
            BasketOf(table, b)[i] == table[k].quantity
  {
    if table != [] {
      RowIsEntry(table[..|table| - 1], b, i);
    }
  }

  /** In a table without duplicates each row is one more basket entry. */
  lemma {:induction false} GroupMeansBasket(table: seq<Selection>, b: BookingId)
    requires Distinct(table)
    ensures GroupOf(table, b) == Group(|BasketOf(table, b)|, Units(BasketOf(table, b)))
  {
    if table == [] {
      EmptyBasket();
    } else {
      hide Units;
      var init, row := table[..|table| - 1], table[|table| - 1];
      GroupMeansBasket(init, b);
      if row.b == b {
        RowIsEntry(init, b, row.i);
        BasketGrows(BasketOf(init, b), row.i, row.quantity);
      }
    }
  }

  lemma TableHoldsBasket(table: seq<Selection>, db: Db, b: BookingId)
    requires Holds(table, db) && Integrity(db)
    ensures BasketOf(table, b) == Basket(db, b)
    ensures GroupOf(table, b) == Group(|Basket(db, b)|, Units(Basket(db, b)))
  {
    hide Units, BasketOf, GroupOf, Distinct;
    GroupMeansBasket(table, b);
    forall i
      ensures i in BasketOf(table, b) <==> i in Basket(db, b)
      ensures i in Basket(db, b) ==> BasketOf(table, b)[i] == Basket(db, b)[i]
    {
      RowIsEntry(table, b, i);
      if i in Basket(db, b) {
        assert Selection(b, i, db.selections[(b, i)]) in table;
      }
    }
    assert BasketOf(table, b) == Basket(db, b);
  }

  lemma FlagsMeanBasket(table: seq<Selection>, db: Db, b: BookingId)
    requires Holds(table, db) && Integrity(db)
    ensures Negative(db, b) <==> exists k :: 0 <= k < |table| && table[k].b == b && table[k].i in db.items
                                             && table[k].quantity > db.items[table[k].i].stock
    ensures Hidden(db, b) <==> exists k :: 0 <= k < |table| && table[k].b == b && table[k].i in db.items
                                           && !db.items[table[k].i].visible
  {
    forall k | 0 <= k < |table| && table[k].b == b
      ensures table[k].i in Basket(db, b) && Basket(db, b)[table[k].i] == table[k].quantity
    {
      assert (table[k].b, table[k].i) in db.selections;
    }
    forall i | i in Basket(db, b)
      ensures exists k :: 0 <= k < |table| && table[k] == Selection(b, i, Basket(db, b)[i])
    {
      assert Selection(b, i, db.selections[(b, i)]) in table;
    }
  }

  /** The database at the time of a query, and its rows in the order read. */
  datatype Moment = Moment(db: Db, table: seq<Selection>)

  ghost predicate Consistent(m: Moment) {
    Holds(m.table, m.db) && Integrity(m.db)
  }

  /** The batched totals of any list of booking ids, repeated or unknown ids
      included, are those of each booking's own basket: each query's of the
      moment it ran, as other transactions may commit in between. */
  method BookingListTotalsOf(ids: seq<BookingId>, counted: Moment, compared: Moment, joined: Moment)
    returns (totals: map<BookingId, BookingListTotals>)
    requires Consistent(counted) && Consistent(compared) && Consistent(joined)
    ensures totals.Keys == set b | b in ids
    ensures forall b :: b in ids ==>
              totals[b] == BookingListTotals(|Basket(counted.db, b)|, Units(Basket(counted.db, b)),
                                             Negative(compared.db, b), Hidden(joined.db, b))
  {
    hide Holds, Integrity, Units, Negative, Hidden, Basket, BasketOf, GroupOf;
    if ids == [] {
      return map[];
    }
    var wanted := set b | b in ids;
    var groups := CountRows(counted.table, wanted);
    totals := map b | b in wanted :: BookingListTotals(0, 0, false, false);
    totals := MergeCounts(totals, groups);
    var negative := NegativeIds(compared.table, compared.db.items, wanted);
    var hidden := HiddenIds(joined.table, joined.db.items, wanted);
    totals := MergeFlags(totals, ids, negative, hidden);
    forall b | b in ids
      ensures totals[b] == BookingListTotals(|Basket(counted.db, b)|, Units(Basket(counted.db, b)),
                                             Negative(compared.db, b), Hidden(joined.db, b))
    {
      TableHoldsBasket(counted.table, counted.db, b);
      FlagsMeanBasket(compared.table, compared.db, b);
      FlagsMeanBasket(joined.table, joined.db, b);
    }
  }

  /** The last loop: both flags of every listed booking. */
  method MergeFlags(before: map<BookingId, BookingListTotals>, ids: seq<BookingId>, negative: set<BookingId>,
      hidden: set<BookingId>)
    returns (totals: map<BookingId, BookingListTotals>)
    requires before.Keys == set b | b in ids
    ensures totals.Keys == before.Keys
    ensures forall b :: b in before ==> totals[b] == before[b].(negative := b in negative, hidden := b in hidden)
  {
    totals := before;
    for k := 0 to |ids|
      invariant totals.Keys == before.Keys
      invariant forall b :: b in before ==>
                  totals[b] == if b in ids[..k] then before[b].(negative := b in negative, hidden := b in hidden)
                               else before[b]
    {
      var current := totals[ids[k]];
      totals := totals[ids[k] := BookingListTotals(current.itemTypes, current.units,
                                                   ids[k] in negative, ids[k] in hidden)];
    }
  }

  lemma EmptyBasket()
    ensures Units(map[]) == 0
  {
  }

  /** The loop over the grouped counts, in whatever order they arrive. */
  method MergeCounts(before: map<BookingId, BookingListTotals>, groups: map<BookingId, Group>)
    returns (totals: map<BookingId, BookingListTotals>)
    requires groups.Keys <= before.Keys
    ensures totals.Keys == before.Keys
    ensures forall b :: b in before ==>
              totals[b] == if b in groups then before[b].(itemTypes := groups[b].itemTypes, units := groups[b].units)
                           else before[b]
  {
    totals := before;
    var rest := groups.Keys;
    while rest != {}
      invariant rest <= groups.Keys && totals.Keys == before.Keys
      invariant forall b :: b in before ==>
                  totals[b] == if b in groups && b !in rest
                               then before[b].(itemTypes := groups[b].itemTypes, units := groups[b].units)
                               else before[b]
    {
      var b :| b in rest;
      var current := totals[b];
      totals := totals[b := BookingListTotals(groups[b].itemTypes, groups[b].units, current.negative, current.hidden)];
      rest := rest - {b};
    }
  }

  // ------------------------------------------------------------- the snapshot

  /** The totals of a reply: a pass over the joined items, counting the rows
      with a positive quantity. */
  function SnapshotTotals(rows: map<ItemId, Row>, listing: seq<ItemId>): Group
    requires forall k :: 0 <= k < |listing| ==> listing[k] in rows
  {
    if listing == [] then Group(0, 0)
    else
      var init := SnapshotTotals(rows, listing[..|listing| - 1]);
      var quantity := rows[listing[|listing| - 1]].quantity;
      if quantity > 0 then Group(init.itemTypes + 1, init.units + quantity) else init
  }

  function Seen(basket: map<ItemId, nat>, listing: seq<ItemId>): map<ItemId, nat> {
    map i | i in basket && i in listing :: basket[i]
  }

  lemma SeenNext(basket: map<ItemId, nat>, init: seq<ItemId>, last: ItemId)
    requires last !in init
    ensures Seen(basket, init + [last]) == if last in basket then Seen(basket, init)[last := basket[last]]
            else Seen(basket, init)
  {
  }

  /** The outer join gives each listed item the basket's quantity, or none. */
  ghost predicate Joins(rows: map<ItemId, Row>, basket: map<ItemId, nat>) {
    && (forall i :: i in rows ==> rows[i].quantity == if i in basket then basket[i] else 0)
    && (forall i :: i in basket ==> basket[i] > 0)
  }

  lemma {:induction false} SnapshotOfPrefix(rows: map<ItemId, Row>, basket: map<ItemId, nat>, listing: seq<ItemId>)
    requires Joins(rows, basket)
    requires forall k :: 0 <= k < |listing| ==> listing[k] in rows
    requires forall j, k :: 0 <= j < k < |listing| ==> listing[j] != listing[k]
    ensures var seen := Seen(basket, listing);
            SnapshotTotals(rows, listing) == Group(|seen|, Units(seen))
  {
    if listing == [] {
      EmptyBasket();
      assert Seen(basket, []) == map[];
    } else {
      hide Units, Seen;
      var init, last := listing[..|listing| - 1], listing[|listing| - 1];
      SnapshotOfPrefix(rows, basket, init);
      assert listing == init + [last];
      SeenNext(basket, init, last);
      if last in basket {
        NotSeen(basket, init, last);
        BasketGrows(Seen(basket, init), last, basket[last]);
      }
    }
  }

  lemma NotSeen(basket: map<ItemId, nat>, listing: seq<ItemId>, i: ItemId)
    requires i !in listing
    ensures i !in Seen(basket, listing)
  {
  }

  /** Both forms agree: the totals shown to the customer, over any listing of
      the joined items, are those of the administrator's booking list. */
  lemma SnapshotAgreesWithList(db: Db, b: BookingId, listing: seq<ItemId>)
    requires Integrity(db)
    requires forall i :: i in listing <==> i in Rows(db.items, Basket(db, b))
    requires forall j, k :: 0 <= j < k < |listing| ==> listing[j] != listing[k]
    ensures SnapshotTotals(Rows(db.items, Basket(db, b)), listing) == Group(|Basket(db, b)|, Units(Basket(db, b)))
  {
    var basket := Basket(db, b);
    SnapshotOfPrefix(Rows(db.items, basket), basket, listing);
    assert Seen(basket, listing) == basket;
  }
}

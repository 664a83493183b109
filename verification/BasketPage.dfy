/** The browser script in its own form: one mutable record per card, a shared
    queue of records, and event handlers that update them. Each handler is
    proved to turn the page into the value that module Page says. */
module BasketPage {
  import opened Wrappers
  import Database
  import P = Page

  type Id = P.Id

  class CardState {
    const id: Id
    var draft: Option<nat>
    var max: nat
    var pending: Option<nat>
    var queued: bool
    var armed: bool
    var lastAttempt: Option<nat>
    var serverValue: nat
    var isAvailable: bool

    constructor (id: Id, selected: nat, stock: nat, isAvailable: bool)
      ensures this.id == id && Value(true) == P.Card(Some(selected), stock, None, false, false, None, selected,
              isAvailable, true)
    {
      this.id := id;
      draft, max, pending, queued, armed := Some(selected), stock, None, false, false;
      lastAttempt, serverValue, this.isAvailable := None, selected, isAvailable;
    }

    ghost function Value(listed: bool): P.Card
      reads this
    {
      P.Card(draft, max, pending, queued, armed, lastAttempt, serverValue, isAvailable, listed)
    }

    method ParsedQuantity() returns (quantity: Option<nat>)
      ensures quantity == P.ParsedQuantity(Value(true)) == P.ParsedQuantity(Value(false))
    {
      if draft.None? || draft.value > P.MAX_SAFE_INTEGER || draft.value > max {
        return None;
      }
      return draft;
    }

    /** What an edit does to its card, up to handing it to the queue. */
    method Note(draft: Option<nat>, immediate: bool) returns (wanted: bool)
      modifies this
      ensures forall listed :: Value(listed) == P.Noted(old(Value(listed)), draft, immediate)
      ensures forall listed :: wanted == P.Wanted(Value(listed))
    {
      this.draft := draft;
      if !isAvailable {
        return false;
      }
      armed := false;
      var quantity := ParsedQuantity();
      if quantity == None {
        pending := None;
        return false;
      }
      pending := quantity;
      lastAttempt := quantity;
      armed := !immediate;
      return true;
    }

    method SetAvailability(available: bool)
      modifies this
      ensures Value(true) == if available then old(Value(true)).(available := true) else P.Lock(old(Value(true)))
    {
      isAvailable := available;
      if !available {
        armed := false;
        pending := None;
        lastAttempt := None;
      }
    }

    /** What a reply's row does to a card. */
    method Refresh(selection: Database.Row, keepDraft: bool)
      modifies this
      ensures Value(true) == P.Refresh(old(Value(true)), selection, keepDraft)
    {
      serverValue := selection.quantity;
      max := selection.stock;
      SetAvailability(selection.available);
      if !keepDraft {
        draft := Some(selection.quantity);
      }
    }
  }

  /** `states` holds every record the script ever made: a record outlives its
      removal from `cards`, because the queue and its timer still refer to it. */
  class BasketPage {
    const states: map<Id, CardState>
    const basketOnly: bool
    var cards: map<Id, CardState>
    var queue: seq<CardState>
    var active: CardState?
    var sentQuantity: nat
    var sentRevision: nat
    var revision: nat
    var wire: seq<P.Request>

    /** Page load: one record per card of the page, nothing queued or sent. */
    constructor (rows: map<Id, Database.Row>, revision: nat, basketOnly: bool)
      ensures Valid() && fresh(states.Values)
      ensures State() == P.Loaded(rows, revision, basketOnly)
    {
      var made: map<Id, CardState> := map[];
      var rest := rows.Keys;
      while rest != {}
        invariant rest <= rows.Keys && made.Keys == rows.Keys - rest
        invariant forall id :: id in made ==> made[id].id == id && fresh(made[id])
        invariant forall id :: id in made ==> made[id].Value(true) == P.LoadedCard(rows[id])
      {
        var id :| id in rest;
        var state := new CardState(id, rows[id].quantity, rows[id].stock, rows[id].available);
        made := made[id := state];
        rest := rest - {id};
      }
      states, cards, this.basketOnly, this.revision := made, made, basketOnly, revision;
      queue, active, sentQuantity, sentRevision, wire := [], null, 0, 0, [];
    }

    ghost predicate Valid()
      reads this
    {
      && (forall id :: id in states ==> states[id].id == id)
      && (forall id :: id in cards ==> id in states && cards[id] == states[id])
      && (forall k :: 0 <= k < |queue| ==> queue[k].id in states && states[queue[k].id] == queue[k])
      && (active != null ==> active.id in states && states[active.id] == active)
    }

    ghost predicate Owns(state: CardState)
    {
      state.id in states && states[state.id] == state
    }

    ghost function Ids(records: seq<CardState>): seq<Id>
    {
      seq(|records|, k requires 0 <= k < |records| => records[k].id)
    }

    ghost function Cards(): map<Id, P.Card>
      reads this, states.Values
    {
      map id | id in states :: states[id].Value(id in cards)
    }

    ghost function State(): (p: P.Page)
      requires Valid()
      reads this, states.Values
      ensures P.Known(p)
    {
      P.Page(Cards(), Ids(queue),
             if active == null then None else Some(P.Request(active.id, sentQuantity, sentRevision)),
             revision, basketOnly, wire)
    }

    /** Updating one record, or its listing, rewrites one card. */
    twostate lemma OneCard(state: CardState)
      requires Valid() && Owns(state)
      requires forall id :: id in states && id != state.id ==>
                 unchanged(states[id]) && (id in cards <==> id in old(cards))
      ensures Cards() == old(Cards())[state.id := state.Value(state.id in cards)]
    {
    }

    /** The same for the whole page, when no other field moved. */
    twostate lemma OneCardOnly(state: CardState)
      requires old(Valid()) && Valid() && Owns(state) && unchanged(this)
      requires forall id :: id in states && id != state.id ==> unchanged(states[id])
      ensures State() == P.WithCard(old(State()), state.id, state.Value(state.id in cards))
    {
      OneCard(state);
    }

    /** What a record says about its card. */
    lemma CardOf(state: CardState)
      requires Valid() && Owns(state)
      ensures State().cards.Keys == states.Keys && State().cards[state.id] == state.Value(state.id in cards)
      ensures State().active.Some? <==> active != null
      ensures active != null ==> State().active == Some(P.Request(active.id, sentQuantity, sentRevision))
      ensures State().basketOnly == basketOnly
    {
    }

    /** queue.shift(), then `state.queued = false`. */
    method Shift() returns (state: CardState)
      requires Valid() && queue != []
      modifies this`queue, states.Values
      ensures Valid() && Owns(state) && state == old(queue[0]) && queue == old(queue[1..])
      ensures state.pending == old(queue[0].pending)
      ensures State() == P.Popped(old(State()))
    {
      state := queue[0];
      queue := queue[1..];
      state.queued := false;
      OneCard(state);
      assert Ids(queue) == old(Ids(queue))[1..];
    }

    /** Marks a popped card active and hands its quantity to fetch. */
    method Send(state: CardState)
      requires Valid() && Owns(state) && active == null && state.pending != None
      modifies this`active, this`sentQuantity, this`sentRevision, this`wire, states.Values
      ensures Valid() && active == state
      ensures State() ==
              var before := old(State());
              var quantity := before.cards[state.id].pending;
              var request := P.Request(state.id, quantity.value, before.revision);
              P.WithCard(before, state.id, before.cards[state.id].(pending := None, lastAttempt := quantity))
                .(active := Some(request), wire := before.wire + [request])
    {
      active := state;
      sentQuantity := state.pending.value;
      sentRevision := revision;
      state.pending := None;
      state.lastAttempt := Some(sentQuantity);
      wire := wire + [P.Request(state.id, sentQuantity, sentRevision)];
      OneCard(state);
    }

    /** What the queue's head says about the page. */
    lemma HeadOf()
      requires Valid()
      ensures State().active.Some? <==> active != null
      ensures |State().queue| == |queue|
      ensures queue != [] ==> State().queue[0] == queue[0].id && State().cards[queue[0].id].pending == queue[0].pending
    {
    }

    method Drain()
      requires Valid()
      modifies this, states.Values
      ensures Valid() && cards == old(cards)
      ensures old(active) != null ==> active == old(active)
      ensures State() == P.Drain(old(State()))
      decreases |queue|
    {
      hide State, Cards, Ids;
      HeadOf();
      if active != null {
        return;
      }
      if queue == [] {
        return;
      }
      var state := Shift();
      if state.pending == None {
        Drain();
        return;
      }
      Send(state);
    }

    method Enqueue(state: CardState)
      requires Valid() && Owns(state)
      modifies this, states.Values
      ensures Valid() && cards == old(cards)
      ensures old(active) != null ==> active == old(active)
      ensures State() == P.Enqueue(old(State()), state.id)
    {
      hide State, Cards, P.Drain;
      CardOf(state);
      if !state.queued {
        Push(state);
      }
      Drain();
    }

    /** `state.queued = true`, then queue.push. */
    method Push(state: CardState)
      requires Valid() && Owns(state)
      modifies this`queue, states.Values
      ensures Valid()
      ensures State() ==
              var before := old(State());
              P.WithCard(before, state.id, before.cards[state.id].(queued := true)).(queue := before.queue + [state.id])
    {
      state.queued := true;
      queue := queue + [state];
      OneCard(state);
      assert Ids(queue) == old(Ids(queue)) + [state.id];
    }

    /** An `input` event, or with `immediate` a `change` event. */
    method Schedule(state: CardState, draft: Option<nat>, immediate: bool)
      requires Valid() && Owns(state)
      modifies this, states.Values
      ensures Valid() && cards == old(cards)
      ensures State() == P.Schedule(old(State()), state.id, draft, immediate)
    {
      hide State, Cards, P.Enqueue, P.Noted, P.Wanted;
      CardOf(state);
      var wanted := state.Note(draft, immediate);
      OneCardOnly(state);
      if wanted && immediate {
        Enqueue(state);
      }
    }

    method RetrySave(state: CardState)
      requires Valid() && Owns(state)
      modifies this, states.Values
      ensures Valid() && cards == old(cards)
      ensures State() == P.RetrySave(old(State()), state.id)
    {
      hide State, Cards, P.Enqueue;
      CardOf(state);
      if state.lastAttempt == None || !state.isAvailable {
        return;
      }
      state.draft := state.lastAttempt;
      state.pending := state.lastAttempt;
      OneCardOnly(state);
      Enqueue(state);
    }

    /** The debounce timer of a card goes off. */
    method Fire(state: CardState)
      requires Valid() && Owns(state)
      modifies this, states.Values
      ensures Valid() && cards == old(cards)
      ensures State() == P.Fire(old(State()), state.id)
    {
      hide State, Cards, P.Enqueue;
      CardOf(state);
      if !state.armed {
        return;
      }
      state.armed := false;
      OneCardOnly(state);
      Enqueue(state);
    }

    method PendingIds() returns (ids: set<Id>)
      requires Valid()
      ensures ids == P.PendingIds(State())
    {
      ids := set id | id in cards && cards[id].pending != None;
    }

    method ApplySnapshot(payload: P.Payload, preserve: set<Id>)
      requires Valid()
      modifies this`revision, states.Values
      ensures Valid() && State() == P.ApplySnapshot(old(State()), payload, preserve)
    {
      hide Cards, P.Refreshed;
      revision := payload.revision;
      SameCards();
      RefreshAll(payload.rows, preserve);
    }

    /** The page's revision is no part of its cards. */
    twostate lemma SameCards()
      requires cards == old(cards) && forall id :: id in states ==> unchanged(states[id])
      ensures Cards() == old(Cards())
    {
    }

    /** Walks the reply's selections and refreshes each card still listed. */
    method RefreshAll(rows: map<Id, Database.Row>, preserve: set<Id>)
      requires Valid()
      modifies states.Values
      ensures Valid() && Cards() == P.Refreshed(old(Cards()), rows, preserve)
    {
      hide P.Refresh;
      var entries := rows.Keys;
      while entries != {}
        invariant entries <= rows.Keys
        invariant forall id :: id in states ==>
          states[id].Value(id in cards) ==
          if id in cards && id in rows && id !in entries
          then P.Refresh(old(states[id].Value(true)), rows[id], id in preserve)
          else old(states[id].Value(id in cards))
        decreases entries
      {
        var id :| id in entries;
        entries := entries - {id};
        if id in cards {
          RefreshOne(id, rows[id], id in preserve);
        }
      }
    }

    method RefreshOne(id: Id, selection: Database.Row, keepDraft: bool)
      requires Valid() && id in cards
      modifies states[id]
      ensures states[id].Value(true) == P.Refresh(old(states[id].Value(true)), selection, keepDraft)
    {
      cards[id].Refresh(selection, keepDraft);
    }

    method HandleSaved(state: CardState, payload: P.Payload)
      requires Valid() && Owns(state) && active != null
      modifies this, states.Values
      ensures Valid() && active == old(active)
      ensures State() == P.HandleSaved(old(State()), state.id, payload)
    {
      hide State, Cards, P.ApplySnapshot, P.Enqueue, P.PendingIds;
      CardOf(state);
      var parsed := state.ParsedQuantity();
      var preserve := PendingIds();
      if parsed == None {
        preserve := preserve + {state.id};
      }
      ghost var keep := P.PendingIds(State()) + (if parsed == None then {state.id} else {});
      assert preserve == keep;
      ApplySnapshot(payload, preserve);
      if parsed == None {
        return;
      }
      CardOf(state);
      var persisted := if state.id in payload.rows then payload.rows[state.id].quantity else 0;
      if state.pending != None && state.pending.value != persisted {
        Enqueue(state);
        return;
      }
      Settled(state, persisted);
    }

    /** The tail of handleSaved: the card shows what the server kept, and the
        basket-only view drops a card whose quantity became zero. */
    method Settled(state: CardState, persisted: nat)
      requires Valid() && Owns(state)
      modifies this`cards, states.Values
      ensures Valid()
      ensures State() ==
              var before := old(State());
              var c := before.cards[state.id];
              P.WithCard(before, state.id, c.(pending := None, draft := Some(persisted), lastAttempt := None,
                         listed := c.listed && !(basketOnly && persisted == 0)))
    {
      state.pending := None;
      state.draft := Some(persisted);
      state.lastAttempt := None;
      if basketOnly && persisted == 0 {
        cards := cards - {state.id};
      }
      OneCard(state);
    }

    /** handleStale, and handleRetryableFailure with or without a payload. */
    method HandleRefused(state: CardState, sent: nat, payload: Option<P.Payload>)
      requires Valid() && Owns(state)
      modifies this`revision, states.Values
      ensures Valid()
      ensures State() == P.HandleRefused(old(State()), state.id, sent, payload)
    {
      hide State, Cards, P.ApplySnapshot, P.OfferRetry;
      CardOf(state);
      var desired := if state.pending != None then state.pending.value else sent;
      ClearPending(state);
      if payload != None {
        var others := PendingIds();
        ApplySnapshot(payload.value, {state.id} + others);
      }
      OfferRetry(state, desired);
    }

    method ClearPending(state: CardState)
      requires Valid() && Owns(state)
      modifies states.Values
      ensures Valid()
      ensures State() == P.WithCard(old(State()), state.id, old(State()).cards[state.id].(pending := None))
    {
      hide State, Cards;
      CardOf(state);
      state.pending := None;
      OneCardOnly(state);
    }

    method OfferRetry(state: CardState, desired: nat)
      requires Valid() && Owns(state)
      modifies states.Values
      ensures Valid() && State() == P.OfferRetry(old(State()), state.id, desired)
    {
      hide State, Cards;
      CardOf(state);
      if !state.isAvailable {
        return;
      }
      state.lastAttempt := Some(desired);
      OneCardOnly(state);
    }

    method HandleStockChange(state: CardState, payload: P.Payload)
      requires Valid() && Owns(state) && active != null
      modifies this, states.Values
      ensures Valid() && active == old(active)
      ensures State() == P.HandleStockChange(old(State()), state.id, payload)
    {
      hide State, Cards, P.ApplySnapshot, P.Enqueue, P.PendingIds;
      CardOf(state);
      var pending := state.pending;
      var preserve := PendingIds();
      ApplySnapshot(payload, preserve);
      CardOf(state);
      var parsed := state.ParsedQuantity();
      if pending != None && parsed != None {
        Enqueue(state);
        return;
      }
      GiveUp(state);
    }

    /** Falls back to the server's value after a refused quantity. */
    method GiveUp(state: CardState)
      requires Valid() && Owns(state)
      modifies states.Values
      ensures Valid()
      ensures State() ==
              var c := old(State()).cards[state.id];
              P.WithCard(old(State()), state.id,
                         c.(pending := None, lastAttempt := None, draft := Some(c.serverValue)))
    {
      hide State, Cards;
      CardOf(state);
      state.pending := None;
      state.lastAttempt := None;
      state.draft := Some(state.serverValue);
      OneCardOnly(state);
    }

    method HandleUnavailable(state: CardState, payload: P.Payload)
      requires Valid() && Owns(state)
      modifies this`revision, states.Values
      ensures Valid()
      ensures State() == P.HandleUnavailable(old(State()), state.id, payload)
    {
      hide State, Cards, P.ApplySnapshot;
      CardOf(state);
      state.pending := None;
      state.lastAttempt := None;
      OneCardOnly(state);
      ApplySnapshot(payload, {});
      CardOf(state);
      label refreshed:
      state.SetAvailability(false);
      OneCardOnly@refreshed(state);
    }

    method HandleNotFound(state: CardState, payload: P.Payload)
      requires Valid() && Owns(state)
      modifies this`revision, states.Values
      ensures Valid()
      ensures State() == P.HandleNotFound(old(State()), state.id, payload)
    {
      hide State, Cards, P.ApplySnapshot;
      ClearPending(state);
      ApplySnapshot(payload, {});
    }

    /** The reply to the request in flight arrives, or the fetch fails; then the
        page is free again and drains its queue. */
    method Receive(response: P.Response)
      requires Valid() && active != null
      modifies this, states.Values
      ensures Valid()
      ensures State() == P.Handle(old(State()), P.Receive(response))
    {
      hide State, Cards, P.Settle, P.Drain;
      CardOf(active);
      Settle(response);
      Release();
      Drain();
    }

    method Release()
      requires Valid()
      modifies this`active
      ensures Valid() && active == null && State() == old(State()).(active := None)
    {
      active := null;
    }

    method Settle(response: P.Response)
      requires Valid() && active != null
      modifies this, states.Values
      ensures Valid() && active == old(active)
      ensures State() == P.Settle(old(State()), response)
    {
      hide State, Cards, P.HandleSaved, P.HandleStockChange, P.HandleRefused, P.HandleUnavailable, P.HandleNotFound;
      CardOf(active);
      var state := active;
      match response
      case Unreadable => HandleRefused(state, sentQuantity, None);
      case Parsed(code, payload) =>
        match code
        case Saved => HandleSaved(state, payload);
        case Stale => HandleRefused(state, sentQuantity, Some(payload));
        case OutOfRange => HandleStockChange(state, payload);
        case Unavailable => HandleUnavailable(state, payload);
        case NotFound => HandleNotFound(state, payload);
        case SaveFailed => HandleRefused(state, sentQuantity, Some(payload));
        case Malformed => HandleRefused(state, sentQuantity, Some(payload));
    }
  }
}

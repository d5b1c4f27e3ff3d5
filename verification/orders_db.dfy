/** The order registry `OrdersDB.Database`: the buy orders and the sell
    orders in insertion order. Every change emits one signal carrying the
    order concerned; the signals are kept as an event log.

    `list.pop(idx)` follows Python: a negative index counts from the end,
    and an index out of range (or popping an empty list) raises
    `IndexError`, modelled as a None result with nothing changed. */
module OrdersDB {
  import opened Wrappers

  /** Python's index normalisation for a list of length `n`. */
  function PythonIndex(idx: int, n: nat): (i: Option<nat>)
    ensures i.Some? <==> 0 <= idx + n && idx < n
    ensures i.Some? ==> i.value < n
    ensures i.Some? && idx >= 0 ==> i.value == idx
    ensures i.Some? && idx < 0 ==> i.value == idx + n
  {
    if 0 <= idx < n then Some(idx)
    else if 0 <= idx + n && idx < 0 then Some(idx + n)
    else None
  }

  /** The list once the element at `i` is deleted: the others keep their
      order, and only that one element is lost. */
  function RemoveAt<T>(s: seq<T>, i: nat): (r: seq<T>)
    requires i < |s|
    ensures |r| == |s| - 1
    ensures forall j :: 0 <= j < i ==> r[j] == s[j]
    ensures forall j :: i <= j < |r| ==> r[j] == s[j + 1]
    ensures multiset(r) + multiset{s[i]} == multiset(s)
  {
    assert s == s[..i] + [s[i]] + s[i + 1..];
    s[..i] + s[i + 1..]
  }

  /** Appending an element and deleting the last one restores the list. */
  lemma PushThenRemoveLast<T>(s: seq<T>, x: T)
    ensures RemoveAt(s + [x], |s|) == s
  {
    assert (s + [x])[..|s|] == s;
  }

  /** What `Database` emits. */
  datatype Event<O> = BuyAdded(order: O) | BuyRemoved(order: O) | SellAdded(order: O) | SellRemoved(order: O)

  class Database<O> {
    var buyOrders: seq<O>
    var sellOrders: seq<O>
    /** Every signal emitted so far, in order. */
    var events: seq<Event<O>>

    constructor ()
      ensures buyOrders == [] && sellOrders == [] && events == []
    {
      buyOrders, sellOrders, events := [], [], [];
    }

    /** `push_buy_order`. */
    method PushBuyOrder(order: O)
      modifies this
      ensures buyOrders == old(buyOrders) + [order] && sellOrders == old(sellOrders)
      ensures events == old(events) + [BuyAdded(order)]
    {
      buyOrders := buyOrders + [order];
      events := events + [BuyAdded(order)];
    }

    /** `push_sell_order`. */
    method PushSellOrder(order: O)
      modifies this
      ensures sellOrders == old(sellOrders) + [order] && buyOrders == old(buyOrders)
      ensures events == old(events) + [SellAdded(order)]
    {
      sellOrders := sellOrders + [order];
      events := events + [SellAdded(order)];
    }

    /** `remove_buy_order(idx)`: the removed order, None on `IndexError`. */
    method RemoveBuyOrder(idx: int) returns (r: Option<O>)
      modifies this
      ensures sellOrders == old(sellOrders)
      ensures r.Some? <==> PythonIndex(idx, |old(buyOrders)|).Some?
      ensures r.None? ==> buyOrders == old(buyOrders) && events == old(events)
      ensures r.Some? ==>
                var i := PythonIndex(idx, |old(buyOrders)|).value;
                r.value == old(buyOrders)[i] && buyOrders == RemoveAt(old(buyOrders), i)
                && events == old(events) + [BuyRemoved(r.value)]
    {
      var i := PythonIndex(idx, |buyOrders|);
      if i.None? {
        return None;
      }
      var order := buyOrders[i.value];
      buyOrders := RemoveAt(buyOrders, i.value);
      events := events + [BuyRemoved(order)];
      r := Some(order);
    }

    /** `remove_sell_order(idx)`: the removed order, None on `IndexError`. */
    method RemoveSellOrder(idx: int) returns (r: Option<O>)
      modifies this
      ensures buyOrders == old(buyOrders)
      ensures r.Some? <==> PythonIndex(idx, |old(sellOrders)|).Some?
      ensures r.None? ==> sellOrders == old(sellOrders) && events == old(events)
      ensures r.Some? ==>
                var i := PythonIndex(idx, |old(sellOrders)|).value;
                r.value == old(sellOrders)[i] && sellOrders == RemoveAt(old(sellOrders), i)
                && events == old(events) + [SellRemoved(r.value)]
    {
      var i := PythonIndex(idx, |sellOrders|);
      if i.None? {
        return None;
      }
      var order := sellOrders[i.value];
      sellOrders := RemoveAt(sellOrders, i.value);
      events := events + [SellRemoved(order)];
      r := Some(order);
    }

    /** `pop_buy_order`: the last buy order, None when there is none. */
    method PopBuyOrder() returns (r: Option<O>)
      modifies this
      ensures sellOrders == old(sellOrders)
      ensures r.None? <==> old(buyOrders) == []
      ensures r.None? ==> buyOrders == old(buyOrders) && events == old(events)
      ensures r.Some? ==>
                r.value == old(buyOrders)[|old(buyOrders)| - 1] && buyOrders == old(buyOrders)[..|old(buyOrders)| - 1]
                && events == old(events) + [BuyRemoved(r.value)]
    {
      if buyOrders == [] {
        return None;
      }
      var order := buyOrders[|buyOrders| - 1];
      buyOrders := buyOrders[..|buyOrders| - 1];
      events := events + [BuyRemoved(order)];
      r := Some(order);
    }

    /** `pop_sell_order`: the last sell order, None when there is none. */
    method PopSellOrder() returns (r: Option<O>)
      modifies this
      ensures buyOrders == old(buyOrders)
      ensures r.None? <==> old(sellOrders) == []
      ensures r.None? ==> sellOrders == old(sellOrders) && events == old(events)
      ensures r.Some? ==>
                r.value == old(sellOrders)[|old(sellOrders)| - 1] && sellOrders == old(sellOrders)[..|old(sellOrders)| - 1]
                && events == old(events) + [SellRemoved(r.value)]
    {
      if sellOrders == [] {
        return None;
      }
      var order := sellOrders[|sellOrders| - 1];
      sellOrders := sellOrders[..|sellOrders| - 1];
      events := events + [SellRemoved(order)];
      r := Some(order);
    }

    /** `top_order`: despite its name it removes the last sell order, and
        returns nothing. `ok` is false when the list was empty and the
        call raised. */
    method TopOrder() returns (ok: bool)
      modifies this
      ensures buyOrders == old(buyOrders)
      ensures ok <==> old(sellOrders) != []
      ensures !ok ==> sellOrders == old(sellOrders) && events == old(events)
      ensures ok ==> sellOrders == old(sellOrders)[..|old(sellOrders)| - 1]
                     && events == old(events) + [SellRemoved(old(sellOrders)[|old(sellOrders)| - 1])]
    {
      var r := PopSellOrder();
      ok := r.Some?;
    }
  }

  /** Pushing a buy order and popping it again gives the same order back,
      leaves both lists as they were and logs one event each. */
  method PushThenPop<O>(db: Database<O>, order: O) returns (popped: Option<O>)
    modifies db
    ensures popped == Some(order)
    ensures db.buyOrders == old(db.buyOrders) && db.sellOrders == old(db.sellOrders)
    ensures db.events == old(db.events) + [BuyAdded(order), BuyRemoved(order)]
  {
    db.PushBuyOrder(order);
    popped := db.PopBuyOrder();
    assert (old(db.buyOrders) + [order])[..|old(db.buyOrders)|] == old(db.buyOrders);
  }

  /** The `singleton` decorator: the first call builds the database, every
      later call returns that same instance. */
  class Singleton<O> {
    var instance: Option<Database<O>>

    constructor ()
      ensures instance == None
    {
      instance := None;
    }

    method Get() returns (db: Database<O>)
      modifies this
      ensures old(instance).Some? ==> db == old(instance).value
      ensures old(instance).None? ==> fresh(db) && db.buyOrders == [] && db.sellOrders == [] && db.events == []
      ensures instance == Some(db)
    {
      if instance.None? {
        var created := new Database<O>();
        instance := Some(created);
      }
      db := instance.value;
    }
  }

  /** Two calls of the decorated class give one and the same database. */
  method SameInstance<O>() returns (first: Database<O>, second: Database<O>)
    ensures first == second
  {
    var s := new Singleton<O>();
    first := s.Get();
    second := s.Get();
  }
}

/** The order table `OrderTableView`: one table of buy orders and one of
    sell orders, each kept row for row in step with a list of the orders
    it shows, and the text its countdown, status and result columns
    derive from an order's state.

    Widget construction, fonts, column widths and the context menu are not
    modelled; a row is reduced to the three cells the view recomputes. */
module OrderTable {
  import opened Wrappers
  import Decimal
  import OrdersDB

  // ------------------------------------------------------------ derived cells

  /** The countdown shown is never negative. */
  function DisplayedCountdown(countdownMs: int): (d: nat)
    ensures d >= countdownMs
    ensures countdownMs >= 0 ==> d == countdownMs
    ensures countdownMs < 0 ==> d == 0
  {
    if countdownMs > 0 then countdownMs else 0
  }

  const MsPerDay := 86_400_000

  /** Two decimal digits, with a leading zero below ten. */
  function TwoDigits(n: nat): (s: string)
    requires n < 100
    ensures |s| == 2 && Decimal.IsDigit(s[0]) && Decimal.IsDigit(s[1])
    ensures Decimal.DigitValue(s[0]) * 10 + Decimal.DigitValue(s[1]) == n
  {
    [Decimal.DigitChar(n / 10), Decimal.DigitChar(n % 10)]
  }

  /** `QTime.fromMSecsSinceStartOfDay(ms).toString('hh:mm:ss')`: a day or
      more is not a valid time of day, and an invalid time prints as the
      empty string. */
  function CountdownText(ms: nat): (t: string)
    ensures ms >= MsPerDay ==> t == ""
    ensures ms < MsPerDay ==> |t| == 8 && t[2] == ':' && t[5] == ':'
  {
    if ms >= MsPerDay then ""
    else
      var seconds := ms / 1000;
      TwoDigits(seconds / 3600) + ":" + TwoDigits(seconds % 3600 / 60) + ":" + TwoDigits(seconds % 60)
  }

  /** Reads an `hh:mm:ss` text back as a number of seconds. */
  function ClockTextSeconds(t: string): Option<nat>
  {
    if |t| == 8 && t[2] == ':' && t[5] == ':'
       && Decimal.IsDigit(t[0]) && Decimal.IsDigit(t[1]) && Decimal.IsDigit(t[3])
       && Decimal.IsDigit(t[4]) && Decimal.IsDigit(t[6]) && Decimal.IsDigit(t[7])
    then
      Some((Decimal.DigitValue(t[0]) * 10 + Decimal.DigitValue(t[1])) * 3600
           + (Decimal.DigitValue(t[3]) * 10 + Decimal.DigitValue(t[4])) * 60
           + Decimal.DigitValue(t[6]) * 10 + Decimal.DigitValue(t[7]))
    else None
  }

  /** Below a day, the countdown text reads back as the whole seconds
      left: hours, minutes and seconds are neither lost nor rounded up. */
  lemma CountdownTextRoundTrip(ms: nat)
    requires ms < MsPerDay
    ensures ClockTextSeconds(CountdownText(ms)) == Some(ms / 1000)
  {
    var q := ms / 1000;
    var t := CountdownText(ms);
    var h, m, s := TwoDigits(q / 3600), TwoDigits(q % 3600 / 60), TwoDigits(q % 60);
    assert t == h + ":" + m + ":" + s;
    assert t[0] == h[0] && t[1] == h[1] && t[3] == m[0] && t[4] == m[1] && t[6] == s[0] && t[7] == s[1];
    assert q % 3600 == q % 3600 / 60 * 60 + q % 60;
  }

  const Done := "完成"
  const Executing := "执行中"
  const Waiting := "等待"
  const Unknown := "unknown"

  /** The status column: finished before running before started. */
  function StatusText(finished: bool, running: bool, started: bool): (t: string)
    ensures t == Done <==> finished
    ensures t == Executing <==> !finished && running
    ensures t == Waiting <==> !finished && !running && started
    ensures t == Unknown <==> !finished && !running && !started
  {
    if finished then Done
    else if running then Executing
    else if started then Waiting
    else Unknown
  }

  /** The result column: '-' before any reply, otherwise
      `succeeded/total`. */
  function ResultText(succeed: nat, failed: nat): (t: string)
    ensures t == "-" <==> succeed + failed == 0
  {
    if succeed + failed == 0 then "-"
    else Decimal.IntToString(succeed) + "/" + Decimal.IntToString(succeed + failed)
  }

  /** The position of the first '/', or the length when there is none. */
  function SlashIndex(t: string): (i: nat)
    ensures i <= |t|
    ensures i < |t| ==> t[i] == '/'
    ensures forall j :: 0 <= j < i ==> t[j] != '/'
  {
    if t == [] then 0 else if t[0] == '/' then 0 else 1 + SlashIndex(t[1..])
  }

  /** Reads a result text back as (succeeded, total). */
  function ParseResult(t: string): Option<(int, int)>
  {
    if t == "-" then Some((0, 0))
    else
      var i := SlashIndex(t);
      if i == |t| then None
      else
        match (Decimal.ParseInt(t[..i]), Decimal.ParseInt(t[i + 1..]))
        case (Some(a), Some(b)) => Some((a, b))
        case _ => None
  }

  lemma {:induction false} SlashIndexAfterDigits(a: string, rest: string)
    requires Decimal.AllDigits(a)
    ensures SlashIndex(a + "/" + rest) == |a|
    decreases |a|
  {
    if a != [] {
      assert (a + "/" + rest)[1..] == a[1..] + "/" + rest;
      SlashIndexAfterDigits(a[1..], rest);
    }
  }

  lemma NonNegativeTextIsDigits(n: nat)
    ensures Decimal.AllDigits(Decimal.IntToString(n))
  {
  }

  /** The result text tells the number of successes and the number of
      replies apart: reading it back gives both. */
  lemma ResultTextRoundTrip(succeed: nat, failed: nat)
    ensures ParseResult(ResultText(succeed, failed)) == Some((succeed, succeed + failed))
  {
    if succeed + failed > 0 {
      var a, b := Decimal.IntToString(succeed), Decimal.IntToString(succeed + failed);
      var t := a + "/" + b;
      NonNegativeTextIsDigits(succeed);
      SlashIndexAfterDigits(a, b);
      assert t[..|a|] == a && t[|a| + 1..] == b;
      Decimal.IntToStringRoundTrip(succeed);
      Decimal.IntToStringRoundTrip(succeed + failed);
      assert t[0] != '-';
    }
  }

  /** What the view reads from an order when it refreshes its row. */
  datatype OrderState = OrderState(countdownMs: int, finished: bool, running: bool, started: bool,
                                   succeed: nat, failed: nat)

  /** The cells `_update_order_item_by_idx` recomputes; `Blank` is a row
      just inserted, whose cells are still empty. */
  datatype Row = Blank | Filled(countdown: string, status: string, result: string)

  /** The row `_update_order_item_by_idx` writes for an order in state `s`. */
  function RowFor(s: OrderState): (r: Row)
    ensures r.Filled?
    ensures r.status == Done <==> s.finished
    ensures r.result == "-" <==> s.succeed + s.failed == 0
    ensures s.countdownMs <= 0 ==> r.countdown == "00:00:00"
  {
    Filled(CountdownText(DisplayedCountdown(s.countdownMs)), StatusText(s.finished, s.running, s.started),
           ResultText(s.succeed, s.failed))
  }

  // ------------------------------------------------------------ the lists

  /** `list.index(x)`: the first position holding `x`. */
  function IndexOf<T(==)>(s: seq<T>, x: T): (i: nat)
    requires x in s
    ensures i < |s| && s[i] == x
    ensures forall j :: 0 <= j < i ==> s[j] != x
  {
    if s[0] == x then 0 else 1 + IndexOf(s[1..], x)
  }

  predicate Distinct<T(==)>(s: seq<T>) {
    forall i, j :: 0 <= i < j < |s| ==> s[i] != s[j]
  }

  /** In a list without repeats, `index` finds each element where it is. */
  lemma IndexOfDistinct<T>(s: seq<T>, i: nat)
    requires Distinct(s) && i < |s|
    ensures IndexOf(s, s[i]) == i
  {
    var k := IndexOf(s, s[i]);
    assert s[k] == s[i];
  }

  lemma RemoveAtKeepsDistinct<T>(s: seq<T>, i: nat)
    requires Distinct(s) && i < |s|
    ensures Distinct(OrdersDB.RemoveAt(s, i))
  {
    var r := OrdersDB.RemoveAt(s, i);
    forall a, b | 0 <= a < b < |r| ensures r[a] != r[b] {
      var a', b' := if a < i then a else a + 1, if b < i then b else b + 1;
      assert r[a] == s[a'] && r[b] == s[b'];
    }
  }

  datatype Table = BuyTable | SellTable

  class OrderTableView<O(==)> {
    var buyOrders: seq<O>
    var sellOrders: seq<O>
    var buyRows: seq<Row>
    var sellRows: seq<Row>

    /** Each list holds exactly one order per row of its table. */
    ghost predicate Valid()
      reads this
    {
      |buyOrders| == |buyRows| && |sellOrders| == |sellRows|
    }

    function Orders(t: Table): seq<O>
      reads this
    {
      if t == BuyTable then buyOrders else sellOrders
    }

    function Rows(t: Table): seq<Row>
      reads this
    {
      if t == BuyTable then buyRows else sellRows
    }

    constructor ()
      ensures Valid()
      ensures buyOrders == [] && sellOrders == [] && buyRows == [] && sellRows == []
    {
      buyOrders, sellOrders, buyRows, sellRows := [], [], [], [];
    }

    /** `_update_order_item_by_idx`: rewrite row `idx` from the state of the
        order at that position. */
    method UpdateOrderItemByIdx(t: Table, idx: nat, state: OrderState)
      requires Valid() && idx < |Orders(t)|
      modifies this
      ensures Valid()
      ensures Rows(t) == old(Rows(t))[idx := RowFor(state)]
      ensures buyOrders == old(buyOrders) && sellOrders == old(sellOrders)
      ensures t == BuyTable ==> sellRows == old(sellRows)
      ensures t == SellTable ==> buyRows == old(buyRows)
    {
      if t == BuyTable {
        buyRows := buyRows[idx := RowFor(state)];
      } else {
        sellRows := sellRows[idx := RowFor(state)];
      }
    }

    /** `_update_all_order_item`: refresh every row of both tables, given
        the current state of each listed order. */
    method UpdateAllOrderItems(buyStates: seq<OrderState>, sellStates: seq<OrderState>)
      requires Valid() && |buyStates| == |buyOrders| && |sellStates| == |sellOrders|
      modifies this
      ensures Valid()
      ensures buyOrders == old(buyOrders) && sellOrders == old(sellOrders)
      ensures |buyRows| == |buyStates| && forall i :: 0 <= i < |buyRows| ==> buyRows[i] == RowFor(buyStates[i])
      ensures |sellRows| == |sellStates| && forall i :: 0 <= i < |sellRows| ==> sellRows[i] == RowFor(sellStates[i])
    {
      for idx := 0 to |buyStates|
        invariant Valid()
        invariant buyOrders == old(buyOrders) && sellOrders == old(sellOrders)
        invariant forall i :: 0 <= i < idx ==> buyRows[i] == RowFor(buyStates[i])
      {
        UpdateOrderItemByIdx(BuyTable, idx, buyStates[idx]);
      }
      for idx := 0 to |sellStates|
        invariant Valid()
        invariant buyOrders == old(buyOrders) && sellOrders == old(sellOrders)
        invariant forall i :: 0 <= i < |buyRows| ==> buyRows[i] == RowFor(buyStates[i])
        invariant forall i :: 0 <= i < idx ==> sellRows[i] == RowFor(sellStates[i])
      {
        UpdateOrderItemByIdx(SellTable, idx, sellStates[idx]);
      }
    }

    /** `_on_order_added`: insert a row after the last one, append the
        order, then fill the row `list.index` finds for it. For an order
        not listed before, that is the new last row. */
    method OnOrderAdded(t: Table, order: O, state: OrderState)
      requires Valid()
      modifies this
      ensures Valid()
      ensures Orders(t) == old(Orders(t)) + [order]
      ensures Rows(t) == (old(Rows(t)) + [Blank])[IndexOf(Orders(t), order) := RowFor(state)]
      ensures order !in old(Orders(t)) ==> Rows(t) == old(Rows(t)) + [RowFor(state)]
      ensures t == BuyTable ==> sellOrders == old(sellOrders) && sellRows == old(sellRows)
      ensures t == SellTable ==> buyOrders == old(buyOrders) && buyRows == old(buyRows)
    {
      if t == BuyTable {
        buyRows := buyRows + [Blank];
        buyOrders := buyOrders + [order];
      } else {
        sellRows := sellRows + [Blank];
        sellOrders := sellOrders + [order];
      }
      var idx := IndexOf(Orders(t), order);
      UpdateOrderItemByIdx(t, idx, state);
      if order !in old(Orders(t)) {
        assert IndexOf(Orders(t), order) == |old(Orders(t))|;
      }
    }

    /** `_on_order_removed_by_idx`: `list.pop(idx)` (which raises on an
        index out of range, before the table is touched), then
        `removeRow(idx)`, which ignores a row that does not exist. Only a
        non-negative index keeps list and table in step: `pop(-1)` removes
        the last order while `removeRow(-1)` removes nothing. */
    method OnOrderRemovedByIdx(t: Table, idx: int)
      requires Valid()
      modifies this
      ensures OrdersDB.PythonIndex(idx, |old(Orders(t))|).None? ==>
                Orders(t) == old(Orders(t)) && Rows(t) == old(Rows(t))
      ensures OrdersDB.PythonIndex(idx, |old(Orders(t))|).Some? ==>
                Orders(t) == OrdersDB.RemoveAt(old(Orders(t)), OrdersDB.PythonIndex(idx, |old(Orders(t))|).value)
                && Rows(t) == (if 0 <= idx < |old(Rows(t))| then OrdersDB.RemoveAt(old(Rows(t)), idx) else old(Rows(t)))
      ensures idx >= 0 ==> Valid()
      ensures t == BuyTable ==> sellOrders == old(sellOrders) && sellRows == old(sellRows)
      ensures t == SellTable ==> buyOrders == old(buyOrders) && buyRows == old(buyRows)
    {
      var i := OrdersDB.PythonIndex(idx, |Orders(t)|);
      if i.None? {
        return;
      }
      if t == BuyTable {
        buyOrders := OrdersDB.RemoveAt(buyOrders, i.value);
        if 0 <= idx < |buyRows| {
          buyRows := OrdersDB.RemoveAt(buyRows, idx);
        }
      } else {
        sellOrders := OrdersDB.RemoveAt(sellOrders, i.value);
        if 0 <= idx < |sellRows| {
          sellRows := OrdersDB.RemoveAt(sellRows, idx);
        }
      }
    }

    /** `_on_buy_order_removed` / `_on_sell_order_removed`: find the order
        with `list.index` (which raises when it is not listed) and remove
        that position from list and table alike. */
    method OnOrderRemoved(t: Table, order: O)
      requires Valid()
      modifies this
      ensures Valid()
      ensures order !in old(Orders(t)) ==> Orders(t) == old(Orders(t)) && Rows(t) == old(Rows(t))
      ensures order in old(Orders(t)) ==>
                var i := IndexOf(old(Orders(t)), order);
                Orders(t) == OrdersDB.RemoveAt(old(Orders(t)), i) && Rows(t) == OrdersDB.RemoveAt(old(Rows(t)), i)
      ensures t == BuyTable ==> sellOrders == old(sellOrders) && sellRows == old(sellRows)
      ensures t == SellTable ==> buyOrders == old(buyOrders) && buyRows == old(buyRows)
    {
      if order !in Orders(t) {
        return;
      }
      OnOrderRemovedByIdx(t, IndexOf(Orders(t), order));
    }
  }

  /** The view listens to the database: when the database removes the buy
      order at `idx`, the view removes the same order from its own list
      and the matching row, so a view that mirrored the database (orders
      listed once each) still mirrors it. */
  method RemovalKeepsViewInStep<O(==)>(db: OrdersDB.Database<O>, view: OrderTableView<O>, idx: int)
      returns (removed: Option<O>)
    requires view.Valid() && view.buyOrders == db.buyOrders && Distinct(db.buyOrders)
    modifies db, view
    ensures view.Valid() && view.buyOrders == db.buyOrders && Distinct(db.buyOrders)
    ensures removed.Some? ==> removed.value !in db.buyOrders
  {
    removed := db.RemoveBuyOrder(idx);
    if removed.Some? {
      var i := OrdersDB.PythonIndex(idx, |old(db.buyOrders)|).value;
      IndexOfDistinct(old(db.buyOrders), i);
      view.OnOrderRemoved(BuyTable, removed.value);
      RemoveAtKeepsDistinct(old(db.buyOrders), i);
      assert removed.value == old(db.buyOrders)[i];
      forall j | 0 <= j < |db.buyOrders| ensures db.buyOrders[j] != removed.value {
        var j' := if j < i then j else j + 1;
        assert db.buyOrders[j] == old(db.buyOrders)[j'];
      }
    }
  }

  /** And when the database adds a buy order, the view lists it too; an
      order not listed before gets a new filled last row. */
  method AdditionKeepsViewInStep<O(==)>(db: OrdersDB.Database<O>, view: OrderTableView<O>, order: O,
                                        state: OrderState)
    requires view.Valid() && view.buyOrders == db.buyOrders
    modifies db, view
    ensures view.Valid() && view.buyOrders == db.buyOrders
    ensures order !in old(db.buyOrders) ==> view.buyRows == old(view.buyRows) + [RowFor(state)]
  {
    db.PushBuyOrder(order);
    view.OnOrderAdded(BuyTable, order, state);
  }
}

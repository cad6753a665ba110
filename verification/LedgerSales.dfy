/** What the sales of the data generator leave behind: a log row for every ordered line, a
    sales row for every order, and the amounts of both and of the monthly bills. */
module LedgerSales {
  import opened Ledger

  // ---------- one order ----------

  /** One row for each line, in order, with what leaves the stock. */
  function LineRows(branch: nat, day: nat, lines: seq<Line>): seq<Log> {
    seq(|lines|, i requires 0 <= i < |lines| => Log(branch, lines[i].item, -lines[i].qty, SALE, day))
  }

  /** How much of an item the lines ask for. */
  function Quantity(lines: seq<Line>, item: nat): int {
    if lines == [] then 0
    else
      var l := lines[|lines| - 1];
      Quantity(lines[..|lines| - 1], item) + if l.item == item then l.qty else 0
  }

  lemma {:induction false} DeductLines(s: State, branch: nat, day: nat, lines: seq<Line>, n: nat)
    requires n <= |lines|
    ensures var t := Deduct(s, branch, day, lines, n);
      && t.logs == s.logs + LineRows(branch, day, lines[..n])
      && t.sales == s.sales && t.revenue == s.revenue && t.expenses == s.expenses
    ensures forall b, i ::
              Stock(Deduct(s, branch, day, lines, n).inventory, b, i) ==
              Stock(s.inventory, b, i) - if b == branch then Quantity(lines[..n], i) else 0
  {
    if n > 0 {
      DeductLines(s, branch, day, lines, n - 1);
      assert lines[..n][..n - 1] == lines[..n - 1];
      assert LineRows(branch, day, lines[..n]) ==
        LineRows(branch, day, lines[..n - 1]) + [Log(branch, lines[n - 1].item, -lines[n - 1].qty, SALE, day)];
    }
  }

  /** Price times quantity, summed. */
  lemma RawIsSum(lines: seq<Line>, l: Line)
    ensures Raw([]) == 0.0
    ensures Raw(lines + [l]) == Raw(lines) + l.qty as real * l.price
  {
    assert (lines + [l])[..|lines|] == lines;
  }

  /** An order costs what its lines do less the discount, and never less than nothing. */
  lemma TotalIs(order: Order)
    ensures Total(order) >= 0.0
    ensures Raw(order.lines) >= order.discount ==> Total(order) == Raw(order.lines) - order.discount
    ensures Raw(order.lines) <= order.discount ==> Total(order) == 0.0
  {
    hide Raw;
  }

  /** An order writes exactly one log row for each of its lines and one sales row, takes the
      quantities from the branch's stock and adds its total to the branch's revenue. */
  lemma OrderSells(s: State, branch: nat, day: nat, order: Order)
    ensures var t := SellOrder(s, branch, day, order);
      && t.logs == s.logs + LineRows(branch, day, order.lines)
      && t.sales == s.sales + [Sale(branch, day, Total(order))]
      && t.expenses == s.expenses
      && (forall b, i :: Stock(t.inventory, b, i) ==
            Stock(s.inventory, b, i) - if b == branch then Quantity(order.lines, i) else 0)
      && (forall b :: Revenue(t.revenue, b) == Revenue(s.revenue, b) + if b == branch then Total(order) else 0.0)
  {
    hide Total, Quantity;
    var sold := s.(revenue := s.revenue[branch := Revenue(s.revenue, branch) + Total(order)],
                   sales := s.sales + [Sale(branch, day, Total(order))]);
    DeductLines(sold, branch, day, order.lines, |order.lines|);
    assert order.lines[..|order.lines|] == order.lines;
  }

  // ---------- a whole run ----------

  /** The sales among the log rows. */
  function SaleRows(logs: seq<Log>): seq<Log> {
    if logs == [] then []
    else
      var l := logs[|logs| - 1];
      SaleRows(logs[..|logs| - 1]) + if l.reason == SALE then [l] else []
  }

  lemma {:induction false} SaleRowsAppend(a: seq<Log>, b: seq<Log>)
    ensures SaleRows(a + b) == SaleRows(a) + SaleRows(b)
  {
    if b == [] {
      assert a + b == a;
    } else {
      assert (a + b)[..|a + b| - 1] == a + b[..|b| - 1];
      SaleRowsAppend(a, b[..|b| - 1]);
    }
  }

  lemma {:induction false} AllSales(rows: seq<Log>)
    requires forall k :: 0 <= k < |rows| ==> rows[k].reason == SALE
    ensures SaleRows(rows) == rows
  {
    if rows != [] {
      AllSales(rows[..|rows| - 1]);
      assert rows == rows[..|rows| - 1] + [rows[|rows| - 1]];
    }
  }

  /** What orders must leave in the log and in the sales. */
  datatype Rows = Rows(logs: seq<Log>, sales: seq<Sale>)

  function Then(a: Rows, b: Rows): Rows {
    Rows(a.logs + b.logs, a.sales + b.sales)
  }

  function OrderRows(branch: nat, day: nat, orders: seq<Order>): Rows {
    if orders == [] then Rows([], [])
    else
      var last := orders[|orders| - 1];
      Then(OrderRows(branch, day, orders[..|orders| - 1]),
        Rows(LineRows(branch, day, last.lines), [Sale(branch, day, Total(last))]))
  }

  function BranchRows(branches: seq<Branch>, day: nat, orders: seq<seq<Order>>, n: nat): Rows
    requires n <= |branches| == |orders|
  {
    if n == 0 then Rows([], [])
    else Then(BranchRows(branches, day, orders, n - 1), OrderRows(branches[n - 1].id, day, orders[n - 1]))
  }

  ghost function DayRows(branches: seq<Branch>, days: seq<Day>, n: nat): Rows
    requires DaysFit(branches, days) && n <= |days|
  {
    if n == 0 then Rows([], [])
    else Then(DayRows(branches, days, n - 1), BranchRows(branches, n - 1, days[n - 1].orders, |branches|))
  }

  /** t has these sales more than s. */
  ghost predicate Sells(s: State, t: State, rows: Rows) {
    SaleRows(t.logs) == SaleRows(s.logs) + rows.logs && t.sales == s.sales + rows.sales
  }

  lemma SellsThen(s: State, t: State, u: State, a: Rows, b: Rows)
    requires Sells(s, t, a) && Sells(t, u, b)
    ensures Sells(s, u, Then(a, b))
  {
    hide SaleRows;
    assert SaleRows(s.logs) + a.logs + b.logs == SaleRows(s.logs) + (a.logs + b.logs);
  }

  lemma SellsSame(s: State, t: State, u: State, rows: Rows)
    requires Sells(s, t, rows) && u.logs == t.logs && u.sales == t.sales
    ensures Sells(s, u, rows)
  {
  }

  lemma SellsAfterNothing(s: State, t: State, u: State, rows: Rows)
    requires Sells(s, t, Rows([], [])) && Sells(t, u, rows)
    ensures Sells(s, u, rows)
  {
    hide SaleRows;
    SellsThen(s, t, u, Rows([], []), rows);
  }

  lemma NothingSells(s: State, t: State)
    requires t.logs == s.logs && t.sales == s.sales
    ensures Sells(s, t, Rows([], []))
  {
  }

  lemma {:induction false} OrdersSell(s: State, branch: nat, day: nat, orders: seq<Order>, n: nat)
    requires n <= |orders|
    ensures Sells(s, SellOrders(s, branch, day, orders, n), OrderRows(branch, day, orders[..n]))
  {
    hide Sells, SellOrder, Total, Then;
    if n == 0 {
      NothingSells(s, s);
    } else {
      OrdersSell(s, branch, day, orders, n - 1);
      assert orders[..n][..n - 1] == orders[..n - 1];
      var before := SellOrders(s, branch, day, orders, n - 1);
      OneSells(before, branch, day, orders[n - 1]);
      SellsThen(s, before, SellOrders(s, branch, day, orders, n), OrderRows(branch, day, orders[..n - 1]),
        Rows(LineRows(branch, day, orders[n - 1].lines), [Sale(branch, day, Total(orders[n - 1]))]));
    }
  }

  lemma OneSells(s: State, branch: nat, day: nat, order: Order)
    ensures Sells(s, SellOrder(s, branch, day, order),
              Rows(LineRows(branch, day, order.lines), [Sale(branch, day, Total(order))]))
  {
    hide SellOrder, Total, Quantity, SaleRows;
    OrderSells(s, branch, day, order);
    SaleRowsAppend(s.logs, LineRows(branch, day, order.lines));
    AllSales(LineRows(branch, day, order.lines));
  }

  lemma {:induction false} RestockSellsNothing(menu: Menu, s: State, branch: nat, day: nat, n: nat)
    requires n <= |menu.items|
    ensures Sells(s, RestockItems(menu, s, branch, day, n).s, Rows([], []))
  {
    if n > 0 {
      RestockSellsNothing(menu, s, branch, day, n - 1);
      var before, after := RestockItems(menu, s, branch, day, n - 1).s, RestockItems(menu, s, branch, day, n).s;
      if after != before {
        assert after.logs[..|after.logs| - 1] == before.logs;
      }
    }
  }

  lemma BranchDaySells(menu: Menu, s: State, branch: Branch, day: nat, d: Day, orders: seq<Order>, rate: real)
    ensures Sells(s, BranchDay(menu, s, branch, day, d, orders, rate), OrderRows(branch.id, day, orders))
  {
    hide Sells, SellOrders, OrderRows, RestockItems;
    var items := RestockItems(menu, s, branch.id, day, |menu.items|).s;
    RestockSellsNothing(menu, s, branch.id, day, |menu.items|);
    SellsSame(s, items, Restock(menu, s, branch, day), Rows([], []));
    NothingSells(s, s);
    var restocked := if d.monday then Restock(menu, s, branch, day) else s;
    var sold := SellOrders(restocked, branch.id, day, orders, |orders|);
    OrdersSell(restocked, branch.id, day, orders, |orders|);
    assert orders[..|orders|] == orders;
    SellsAfterNothing(s, restocked, sold, OrderRows(branch.id, day, orders));
    SellsSame(s, sold, BranchDay(menu, s, branch, day, d, orders, rate), OrderRows(branch.id, day, orders));
  }

  lemma {:induction false} BranchesSell(menu: Menu, branches: seq<Branch>, s: State, day: nat, d: Day, n: nat)
    requires DayFits(branches, d) && n <= |branches|
    ensures Sells(s, Branches(menu, branches, s, day, d, n), BranchRows(branches, day, d.orders, n))
  {
    hide Sells, BranchDay, OrderRows, Then;
    if n == 0 {
      NothingSells(s, s);
    } else {
      BranchesSell(menu, branches, s, day, d, n - 1);
      var before := Branches(menu, branches, s, day, d, n - 1);
      BranchDaySells(menu, before, branches[n - 1], day, d, d.orders[n - 1], d.rates[n - 1]);
      SellsThen(s, before, Branches(menu, branches, s, day, d, n), BranchRows(branches, day, d.orders, n - 1),
        OrderRows(branches[n - 1].id, day, d.orders[n - 1]));
    }
  }

  /** Over any number of days: every line of every order of every branch is one SALE row, and
      every order one sales row, in the order of days, branches and orders, and there are no
      others. */
  lemma {:induction false} RunSells(menu: Menu, branches: seq<Branch>, s: State, days: seq<Day>, n: nat)
    requires DaysFit(branches, days) && n <= |days|
    ensures Sells(s, RunTo(menu, branches, s, days, n), DayRows(branches, days, n))
  {
    hide Sells, Branches, BranchRows, Then;
    if n == 0 {
      NothingSells(s, s);
    } else {
      RunSells(menu, branches, s, days, n - 1);
      var before := RunTo(menu, branches, s, days, n - 1);
      BranchesSell(menu, branches, before, n - 1, days[n - 1], |branches|);
      SellsThen(s, before, RunTo(menu, branches, s, days, n), DayRows(branches, days, n - 1),
        BranchRows(branches, n - 1, days[n - 1].orders, |branches|));
    }
  }

  lemma {:induction false} OrdersLog(s: State, branch: nat, day: nat, orders: seq<Order>, n: nat)
    requires n <= |orders|
    ensures SellOrders(s, branch, day, orders, n).logs == s.logs + OrderRows(branch, day, orders[..n]).logs
  {
    hide SellOrder, Total;
    if n > 0 {
      OrdersLog(s, branch, day, orders, n - 1);
      assert orders[..n][..n - 1] == orders[..n - 1];
      OrderSells(SellOrders(s, branch, day, orders, n - 1), branch, day, orders[n - 1]);
    }
  }

  /** The log rows of a branch's day: on a Monday one for each item that is low that morning,
      on other days none, and then those of its orders. */
  lemma BranchDayLogs(menu: Menu, s: State, branch: Branch, day: nat, d: Day, orders: seq<Order>, rate: real)
    requires Different(menu.items)
    ensures BranchDay(menu, s, branch, day, d, orders, rate).logs ==
      s.logs + (if d.monday then RestockRows(s, branch.id, day, menu.items) else []) +
        OrderRows(branch.id, day, orders).logs
  {
    hide SellOrders, OrderRows, RestockItems, RestockRows;
    var restocked := if d.monday then Restock(menu, s, branch, day) else s;
    RestockIsFilled(menu, s, branch.id, day, |menu.items|);
    assert menu.items[..|menu.items|] == menu.items && orders[..|orders|] == orders;
    OrdersLog(restocked, branch.id, day, orders, |orders|);
  }

  // ---------- the bills ----------

  /** A bill's amount, by its kind, from the branch's sales since the month end before. */
  lemma BillAmounts(days: seq<Day>, branches: seq<Branch>, sales: seq<Sale>, e: Expense)
    requires BillRight(days, branches, sales, e)
    ensures var base := SalesIn(sales, e.branch.id, MonthStart(days, e.day), e.day + 1);
      && (e.kind == UTILITIES ==> e.amount == 50.0 * e.branch.sqm as real + 0.03 * base)
      && (e.kind == MARKETING ==> exists m ::
            0 <= m < |branches| && branches[m] == e.branch && m < |days[e.day].rates|
            && e.amount == base * days[e.day].rates[m])
  {
    hide SalesIn, MonthStart;
  }
}

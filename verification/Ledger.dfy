/** The data generator's bookkeeping: branch stock, inventory logs, purchase orders, sales
    and monthly revenue over nested day, branch, order and item loops.  Random draws and
    the calendar are inputs. */
module Ledger {

  datatype Branch = Branch(id: nat, sqm: nat)
  datatype Menu = Menu(items: seq<nat>, costs: map<nat, real>)
  datatype Line = Line(item: nat, price: real, qty: int)
  datatype Order = Order(lines: seq<Line>, discount: real)

  datatype Reason = SALE | RESTOCK
  datatype Log = Log(branch: nat, item: nat, change: int, reason: Reason, day: nat)
  datatype Kind = PO | UTILITIES | MARKETING
  datatype Expense = Expense(branch: Branch, kind: Kind, amount: real, day: nat)
  datatype Sale = Sale(branch: nat, day: nat, total: real)

  /** One day: what the calendar says, and each branch's orders and marketing rate. */
  datatype Day = Day(monday: bool, lastOfMonth: bool, orders: seq<seq<Order>>, rates: seq<real>)

  /** The dictionaries, and every row written so far. */
  datatype State = State(
    inventory: map<(nat, nat), int>,
    revenue: map<nat, real>,
    logs: seq<Log>,
    expenses: seq<Expense>,
    sales: seq<Sale>)

  const REORDER_BELOW: int := 150
  const RESTOCK_TO: int := 500

  function Stock(inventory: map<(nat, nat), int>, branch: nat, item: nat): int {
    if (branch, item) in inventory then inventory[(branch, item)] else 0
  }

  function Revenue(revenue: map<nat, real>, branch: nat): real {
    if branch in revenue then revenue[branch] else 0.0
  }

  function Cost(menu: Menu, item: nat): real {
    if item in menu.costs then menu.costs[item] else 0.0
  }

  function Worth(qty: int, price: real): real {
    qty as real * price
  }

  // ---------- the loops as functions ----------

  /** Changes a stock and writes the log row for it. */
  function Post(s: State, log: Log): State {
    s.(inventory := s.inventory[(log.branch, log.item) := Stock(s.inventory, log.branch, log.item) + log.change],
       logs := s.logs + [log])
  }

  datatype Restocking = Restocking(s: State, total: real)

  function RestockItems(menu: Menu, s: State, branch: nat, day: nat, n: nat): Restocking
    requires n <= |menu.items|
  {
    if n == 0 then Restocking(s, 0.0)
    else
      var r := RestockItems(menu, s, branch, day, n - 1);
      var item := menu.items[n - 1];
      var stock := Stock(r.s.inventory, branch, item);
      if stock < REORDER_BELOW then
        var qty := RESTOCK_TO - stock;
        Restocking(Post(r.s, Log(branch, item, qty, RESTOCK, day)), r.total + Worth(qty, Cost(menu, item)))
      else r
  }

  function Spend(s: State, e: Expense): State {
    s.(expenses := s.expenses + [e])
  }

  function Restock(menu: Menu, s: State, branch: Branch, day: nat): State {
    var r := RestockItems(menu, s, branch.id, day, |menu.items|);
    if r.total > 0.0 then Spend(r.s, Expense(branch, PO, r.total, day)) else r.s
  }

  function Raw(lines: seq<Line>): real {
    if lines == [] then 0.0 else Raw(lines[..|lines| - 1]) + Worth(lines[|lines| - 1].qty, lines[|lines| - 1].price)
  }

  function Total(order: Order): real {
    if Raw(order.lines) - order.discount > 0.0 then Raw(order.lines) - order.discount else 0.0
  }

  function Deduct(s: State, branch: nat, day: nat, lines: seq<Line>, n: nat): State
    requires n <= |lines|
  {
    if n == 0 then s
    else Post(Deduct(s, branch, day, lines, n - 1), Log(branch, lines[n - 1].item, -lines[n - 1].qty, SALE, day))
  }

  function SellOrder(s: State, branch: nat, day: nat, order: Order): State {
    var sold := s.(revenue := s.revenue[branch := Revenue(s.revenue, branch) + Total(order)],
                   sales := s.sales + [Sale(branch, day, Total(order))]);
    Deduct(sold, branch, day, order.lines, |order.lines|)
  }

  function SellOrders(s: State, branch: nat, day: nat, orders: seq<Order>, n: nat): State
    requires n <= |orders|
  {
    if n == 0 then s else SellOrder(SellOrders(s, branch, day, orders, n - 1), branch, day, orders[n - 1])
  }

  function UtilityBill(sqm: nat, revenue: real): real {
    (sqm * 50) as real + revenue * 0.03
  }

  function Share(revenue: real, rate: real): real {
    revenue * rate
  }

  function CloseMonth(s: State, branch: Branch, day: nat, rate: real): State {
    var base := Revenue(s.revenue, branch.id);
    var billed := Spend(s, Expense(branch, UTILITIES, UtilityBill(branch.sqm, base), day));
    Spend(billed, Expense(branch, MARKETING, Share(base, rate), day)).(revenue := s.revenue[branch.id := 0.0])
  }

  function BranchDay(menu: Menu, s: State, branch: Branch, day: nat, d: Day, orders: seq<Order>, rate: real): State {
    var restocked := if d.monday then Restock(menu, s, branch, day) else s;
    var sold := SellOrders(restocked, branch.id, day, orders, |orders|);
    if d.lastOfMonth then CloseMonth(sold, branch, day, rate) else sold
  }

  predicate DayFits(branches: seq<Branch>, d: Day) {
    |d.orders| == |branches| && |d.rates| == |branches|
  }

  function Branches(menu: Menu, branches: seq<Branch>, s: State, day: nat, d: Day, n: nat): State
    requires DayFits(branches, d) && n <= |branches|
  {
    if n == 0 then s
    else BranchDay(menu, Branches(menu, branches, s, day, d, n - 1), branches[n - 1], day, d, d.orders[n - 1],
      d.rates[n - 1])
  }

  ghost predicate DaysFit(branches: seq<Branch>, days: seq<Day>) {
    forall i :: 0 <= i < |days| ==> DayFits(branches, days[i])
  }

  ghost function RunTo(menu: Menu, branches: seq<Branch>, s: State, days: seq<Day>, n: nat): State
    requires DaysFit(branches, days) && n <= |days|
  {
    if n == 0 then s
    else Branches(menu, branches, RunTo(menu, branches, s, days, n - 1), n - 1, days[n - 1], |branches|)
  }

  // ---------- what the rows say ----------

  /** The sum of a branch's logged changes of an item. */
  function Change(logs: seq<Log>, branch: nat, item: nat): int {
    if logs == [] then 0
    else
      var l := logs[|logs| - 1];
      Change(logs[..|logs| - 1], branch, item) + if l.branch == branch && l.item == item then l.change else 0
  }

  /** What a branch's restocks of one day cost. */
  function RestockValue(menu: Menu, logs: seq<Log>, branch: nat, day: nat): real {
    if logs == [] then 0.0
    else
      var l := logs[|logs| - 1];
      RestockValue(menu, logs[..|logs| - 1], branch, day)
        + if l.reason == RESTOCK && l.branch == branch && l.day == day then Worth(l.change, Cost(menu, l.item)) else 0.0
  }

  /** The amounts of a branch's purchase orders of one day. */
  function Ordered(expenses: seq<Expense>, branch: nat, day: nat): real {
    if expenses == [] then 0.0
    else
      var e := expenses[|expenses| - 1];
      Ordered(expenses[..|expenses| - 1], branch, day)
        + if e.kind == PO && e.branch.id == branch && e.day == day then e.amount else 0.0
  }

  /** A branch's sales from day `first` up to, not including, day `end`. */
  function SalesIn(sales: seq<Sale>, branch: nat, first: nat, end: nat): real {
    if sales == [] then 0.0
    else
      var s := sales[|sales| - 1];
      SalesIn(sales[..|sales| - 1], branch, first, end) +
        if s.branch == branch && first <= s.day < end then s.total else 0.0
  }

  /** The day after the last month end before day d. */
  function MonthStart(days: seq<Day>, d: nat): (m: nat)
    requires d <= |days|
    ensures m <= d
    ensures m > 0 ==> days[m - 1].lastOfMonth
    ensures forall i :: m <= i < d ==> !days[i].lastOfMonth
  {
    if d == 0 || days[d - 1].lastOfMonth then d else MonthStart(days, d - 1)
  }

  // ---------- stock is the initial stock plus the logged changes ----------

  ghost predicate Conserved(before: map<(nat, nat), int>, s: State) {
    forall b, i :: Stock(s.inventory, b, i) == Stock(before, b, i) + Change(s.logs, b, i)
  }

  lemma ChangeMore(logs: seq<Log>, l: Log, b: nat, i: nat)
    ensures Change(logs + [l], b, i) == Change(logs, b, i) + if l.branch == b && l.item == i then l.change else 0
  {
    assert (logs + [l])[..|logs|] == logs;
  }

  lemma PostConserves(before: map<(nat, nat), int>, s: State, l: Log)
    requires Conserved(before, s)
    ensures Conserved(before, Post(s, l))
  {
    hide Change;
    forall b, i ensures Stock(Post(s, l).inventory, b, i) == Stock(before, b, i) + Change(s.logs + [l], b, i) {
      ChangeMore(s.logs, l, b, i);
    }
  }

  lemma {:induction false} RestockConserves(before: map<(nat, nat), int>, menu: Menu, s: State, branch: nat, day: nat,
      n: nat)
    requires Conserved(before, s) && n <= |menu.items|
    ensures Conserved(before, RestockItems(menu, s, branch, day, n).s)
  {
    hide Conserved, Post, Worth;
    if n > 0 {
      RestockConserves(before, menu, s, branch, day, n - 1);
      var r := RestockItems(menu, s, branch, day, n - 1);
      var qty := RESTOCK_TO - Stock(r.s.inventory, branch, menu.items[n - 1]);
      PostConserves(before, r.s, Log(branch, menu.items[n - 1], qty, RESTOCK, day));
    }
  }

  lemma {:induction false} DeductConserves(before: map<(nat, nat), int>, s: State, branch: nat, day: nat,
      lines: seq<Line>, n: nat)
    requires Conserved(before, s) && n <= |lines|
    ensures Conserved(before, Deduct(s, branch, day, lines, n))
  {
    hide Conserved, Post;
    if n > 0 {
      DeductConserves(before, s, branch, day, lines, n - 1);
      PostConserves(before, Deduct(s, branch, day, lines, n - 1),
        Log(branch, lines[n - 1].item, -lines[n - 1].qty, SALE, day));
    }
  }

  lemma SameStockConserves(before: map<(nat, nat), int>, s: State, s': State)
    requires Conserved(before, s) && s'.inventory == s.inventory && s'.logs == s.logs
    ensures Conserved(before, s')
  {
  }

  lemma {:induction false} SellConserves(before: map<(nat, nat), int>, s: State, branch: nat, day: nat,
      orders: seq<Order>, n: nat)
    requires Conserved(before, s) && n <= |orders|
    ensures Conserved(before, SellOrders(s, branch, day, orders, n))
  {
    hide Conserved, Deduct, Total;
    if n > 0 {
      SellConserves(before, s, branch, day, orders, n - 1);
      var t, order := SellOrders(s, branch, day, orders, n - 1), orders[n - 1];
      var sold := t.(revenue := t.revenue[branch := Revenue(t.revenue, branch) + Total(order)],
                     sales := t.sales + [Sale(branch, day, Total(order))]);
      SameStockConserves(before, t, sold);
      DeductConserves(before, sold, branch, day, order.lines, |order.lines|);
    }
  }

  // ---------- purchase orders are what was restocked ----------

  /** Restocked but not yet ordered: `open` for one branch and day, nothing for the others. */
  ghost predicate Procured(menu: Menu, s: State, branch: nat, day: nat, open: real) {
    forall b, d ::
      Ordered(s.expenses, b, d) + (if b == branch && d == day then open else 0.0) == RestockValue(menu, s.logs, b, d)
  }

  lemma ValueMore(menu: Menu, logs: seq<Log>, l: Log, b: nat, d: nat)
    ensures RestockValue(menu, logs + [l], b, d) == RestockValue(menu, logs, b, d)
      + if l.reason == RESTOCK && l.branch == b && l.day == d then Worth(l.change, Cost(menu, l.item)) else 0.0
  {
    hide Worth, Cost;
    assert (logs + [l])[..|logs|] == logs;
  }

  lemma OrderedMore(expenses: seq<Expense>, e: Expense, b: nat, d: nat)
    ensures Ordered(expenses + [e], b, d) ==
            Ordered(expenses, b, d) + if e.kind == PO && e.branch.id == b && e.day == d then e.amount else 0.0
  {
    assert (expenses + [e])[..|expenses|] == expenses;
  }

  lemma PostProcures(menu: Menu, s: State, l: Log, branch: nat, day: nat, open: real)
    requires Procured(menu, s, branch, day, open)
    requires l.reason == RESTOCK ==> l.branch == branch && l.day == day
    ensures Procured(menu, Post(s, l), branch, day,
      open + if l.reason == RESTOCK then Worth(l.change, Cost(menu, l.item)) else 0.0)
  {
    hide Worth, Cost, Ordered, RestockValue;
    forall b, d ensures RestockValue(menu, s.logs + [l], b, d) == RestockValue(menu, s.logs, b, d)
      + if l.reason == RESTOCK && l.branch == b && l.day == d then Worth(l.change, Cost(menu, l.item)) else 0.0
    {
      ValueMore(menu, s.logs, l, b, d);
    }
  }

  lemma SpendProcures(menu: Menu, s: State, e: Expense, open: real)
    requires Procured(menu, s, e.branch.id, e.day, open) && (if e.kind == PO then e.amount == open else open == 0.0)
    ensures Procured(menu, Spend(s, e), e.branch.id, e.day, 0.0)
  {
    hide Ordered, RestockValue;
    forall b, d ensures Ordered(s.expenses + [e], b, d) ==
      Ordered(s.expenses, b, d) + if e.kind == PO && e.branch.id == b && e.day == d then e.amount else 0.0
    {
      OrderedMore(s.expenses, e, b, d);
    }
  }

  predicate CostsNonNegative(menu: Menu) {
    forall i :: i in menu.costs ==> menu.costs[i] >= 0.0
  }

  lemma WorthNonNegative(qty: int, price: real)
    requires qty >= 0 && price >= 0.0
    ensures Worth(qty, price) >= 0.0
  {
  }

  lemma {:induction false} RestockProcures(menu: Menu, s: State, branch: nat, day: nat, n: nat)
    requires Procured(menu, s, branch, day, 0.0) && CostsNonNegative(menu) && n <= |menu.items|
    ensures var r := RestockItems(menu, s, branch, day, n);
      Procured(menu, r.s, branch, day, r.total) && r.total >= 0.0
  {
    hide Procured, Post, Worth;
    if n > 0 {
      RestockProcures(menu, s, branch, day, n - 1);
      var r, item := RestockItems(menu, s, branch, day, n - 1), menu.items[n - 1];
      var qty := RESTOCK_TO - Stock(r.s.inventory, branch, item);
      if qty > RESTOCK_TO - REORDER_BELOW {
        WorthNonNegative(qty, Cost(menu, item));
        PostProcures(menu, r.s, Log(branch, item, qty, RESTOCK, day), branch, day, r.total);
      }
    }
  }

  lemma {:induction false} DeductProcures(menu: Menu, s: State, branch: nat, day: nat, lines: seq<Line>, n: nat)
    requires Procured(menu, s, branch, day, 0.0) && n <= |lines|
    ensures Procured(menu, Deduct(s, branch, day, lines, n), branch, day, 0.0)
  {
    hide Procured, Post;
    if n > 0 {
      DeductProcures(menu, s, branch, day, lines, n - 1);
      PostProcures(menu, Deduct(s, branch, day, lines, n - 1),
                   Log(branch, lines[n - 1].item, -lines[n - 1].qty, SALE, day), branch, day, 0.0);
    }
  }

  lemma SameRowsProcure(menu: Menu, s: State, s': State, branch: nat, day: nat)
    requires Procured(menu, s, branch, day, 0.0) && s'.expenses == s.expenses && s'.logs == s.logs
    ensures Procured(menu, s', branch, day, 0.0)
  {
  }

  lemma AnyProcured(menu: Menu, s: State, branch: nat, day: nat, branch': nat, day': nat)
    requires Procured(menu, s, branch, day, 0.0)
    ensures Procured(menu, s, branch', day', 0.0)
  {
    hide Ordered, RestockValue;
  }

  lemma {:induction false} SellProcures(menu: Menu, s: State, branch: nat, day: nat, orders: seq<Order>, n: nat)
    requires Procured(menu, s, branch, day, 0.0) && n <= |orders|
    ensures Procured(menu, SellOrders(s, branch, day, orders, n), branch, day, 0.0)
  {
    hide Procured, Deduct, Total;
    if n > 0 {
      SellProcures(menu, s, branch, day, orders, n - 1);
      var t, order := SellOrders(s, branch, day, orders, n - 1), orders[n - 1];
      var sold := t.(revenue := t.revenue[branch := Revenue(t.revenue, branch) + Total(order)],
                     sales := t.sales + [Sale(branch, day, Total(order))]);
      SameRowsProcure(menu, t, sold, branch, day);
      DeductProcures(menu, sold, branch, day, order.lines, |order.lines|);
    }
  }

  lemma CloseProcures(menu: Menu, s: State, branch: Branch, day: nat, rate: real)
    requires Procured(menu, s, branch.id, day, 0.0)
    ensures Procured(menu, CloseMonth(s, branch, day, rate), branch.id, day, 0.0)
  {
    hide Procured, UtilityBill, Share;
    var base := Revenue(s.revenue, branch.id);
    var e, e' := Expense(branch, UTILITIES, UtilityBill(branch.sqm, base), day),
      Expense(branch, MARKETING, Share(base, rate), day);
    SpendProcures(menu, s, e, 0.0);
    SpendProcures(menu, Spend(s, e), e', 0.0);
    SameRowsProcure(menu, Spend(Spend(s, e), e'), CloseMonth(s, branch, day, rate), branch.id, day);
  }

  /** Stock and purchase orders, one branch and day. */
  ghost predicate Balanced(before: map<(nat, nat), int>, menu: Menu, s: State) {
    Conserved(before, s) && (CostsNonNegative(menu) ==> Procured(menu, s, 0, 0, 0.0))
  }

  lemma RestockBalances(before: map<(nat, nat), int>, menu: Menu, s: State, branch: Branch, day: nat)
    requires Balanced(before, menu, s)
    ensures Balanced(before, menu, Restock(menu, s, branch, day))
  {
    hide Conserved, Procured, RestockItems, CostsNonNegative;
    var r := RestockItems(menu, s, branch.id, day, |menu.items|);
    var ordered := Restock(menu, s, branch, day);
    RestockConserves(before, menu, s, branch.id, day, |menu.items|);
    SameStockConserves(before, r.s, ordered);
    if CostsNonNegative(menu) {
      AnyProcured(menu, s, 0, 0, branch.id, day);
      RestockProcures(menu, s, branch.id, day, |menu.items|);
      if r.total > 0.0 { SpendProcures(menu, r.s, Expense(branch, PO, r.total, day), r.total); }
      AnyProcured(menu, ordered, branch.id, day, 0, 0);
    }
  }

  lemma {:induction false} SalesBalance(before: map<(nat, nat), int>, menu: Menu, s: State, branch: nat, day: nat,
      orders: seq<Order>)
    requires Balanced(before, menu, s)
    ensures Balanced(before, menu, SellOrders(s, branch, day, orders, |orders|))
  {
    hide Conserved, Procured, SellOrders, CostsNonNegative;
    SellConserves(before, s, branch, day, orders, |orders|);
    if CostsNonNegative(menu) {
      AnyProcured(menu, s, 0, 0, branch, day);
      SellProcures(menu, s, branch, day, orders, |orders|);
      AnyProcured(menu, SellOrders(s, branch, day, orders, |orders|), branch, day, 0, 0);
    }
  }

  lemma CloseBalances(before: map<(nat, nat), int>, menu: Menu, s: State, branch: Branch, day: nat, rate: real)
    requires Balanced(before, menu, s)
    ensures Balanced(before, menu, CloseMonth(s, branch, day, rate))
  {
    hide Conserved, Procured, CloseMonth, CostsNonNegative;
    var closed := CloseMonth(s, branch, day, rate);
    ClosePosts(s, branch, day, rate);
    SameStockConserves(before, s, closed);
    if CostsNonNegative(menu) {
      AnyProcured(menu, s, 0, 0, branch.id, day);
      CloseProcures(menu, s, branch, day, rate);
      AnyProcured(menu, closed, branch.id, day, 0, 0);
    }
  }

  lemma BranchDayBalances(before: map<(nat, nat), int>, menu: Menu, s: State, branch: Branch, day: nat, d: Day,
                          orders: seq<Order>, rate: real)
    requires Balanced(before, menu, s)
    ensures Balanced(before, menu, BranchDay(menu, s, branch, day, d, orders, rate))
  {
    hide Balanced, Restock, SellOrders, CloseMonth;
    if d.monday { RestockBalances(before, menu, s, branch, day); }
    var restocked := if d.monday then Restock(menu, s, branch, day) else s;
    SalesBalance(before, menu, restocked, branch.id, day, orders);
    CloseBalances(before, menu, SellOrders(restocked, branch.id, day, orders, |orders|), branch, day, rate);
  }

  lemma ClosePosts(s: State, branch: Branch, day: nat, rate: real)
    ensures CloseMonth(s, branch, day, rate).inventory == s.inventory && CloseMonth(s, branch, day, rate).logs == s.logs
  {
  }

  lemma {:induction false} BranchesBalance(before: map<(nat, nat), int>, menu: Menu, branches: seq<Branch>, s: State,
                                           day: nat, d: Day, n: nat)
    requires Balanced(before, menu, s) && DayFits(branches, d) && n <= |branches|
    ensures Balanced(before, menu, Branches(menu, branches, s, day, d, n))
  {
    hide Balanced, BranchDay;
    if n > 0 {
      BranchesBalance(before, menu, branches, s, day, d, n - 1);
      BranchDayBalances(before, menu, Branches(menu, branches, s, day, d, n - 1), branches[n - 1], day, d,
        d.orders[n - 1], d.rates[n - 1]);
    }
  }

  lemma {:induction false} RunBalances(menu: Menu, branches: seq<Branch>, s: State, days: seq<Day>, n: nat)
    requires DaysFit(branches, days) && n <= |days|
    requires s.logs == [] && s.expenses == []
    ensures Balanced(s.inventory, menu, RunTo(menu, branches, s, days, n))
  {
    hide Balanced, Branches, DayFits;
    if n == 0 {
      assert Balanced(s.inventory, menu, s) by { NothingPosted(menu, s); }
    } else {
      RunBalances(menu, branches, s, days, n - 1);
      BranchesBalance(s.inventory, menu, branches, RunTo(menu, branches, s, days, n - 1), n - 1, days[n - 1],
        |branches|);
    }
  }

  lemma NothingPosted(menu: Menu, s: State)
    requires s.logs == [] && s.expenses == []
    ensures Balanced(s.inventory, menu, s)
  {
  }

  /** After any number of days every stock is its initial value plus its logged changes. */
  lemma StockIsInitialPlusLogs(menu: Menu, branches: seq<Branch>, s: State, days: seq<Day>, n: nat, branch: nat,
      item: nat)
    requires DaysFit(branches, days) && n <= |days|
    requires s.logs == [] && s.expenses == []
    ensures var t := RunTo(menu, branches, s, days, n);
      Stock(t.inventory, branch, item) == Stock(s.inventory, branch, item) + Change(t.logs, branch, item)
  {
    hide RunTo, Change, Procured;
    RunBalances(menu, branches, s, days, n);
  }

  /** After any number of days a branch's purchase orders of a day amount to what it
      restocked that day, at cost. */
  lemma {:induction false} OrdersAreRestocks(menu: Menu, branches: seq<Branch>, s: State, days: seq<Day>, n: nat,
      branch: nat, day: nat)
    requires CostsNonNegative(menu) && DaysFit(branches, days) && n <= |days|
    requires s.logs == [] && s.expenses == []
    ensures var t := RunTo(menu, branches, s, days, n);
      Ordered(t.expenses, branch, day) == RestockValue(menu, t.logs, branch, day)
  {
    hide RunTo, Conserved, Ordered, RestockValue;
    RunBalances(menu, branches, s, days, n);
  }

  // ---------- restocking fills what is low, and nothing else ----------

  ghost predicate Different(items: seq<nat>) {
    forall i, j :: 0 <= i < j < |items| ==> items[i] != items[j]
  }

  function Refilled(stock: int): int {
    if stock < REORDER_BELOW then RESTOCK_TO else stock
  }

  /** The row a restock writes for a low item. */
  function RestockRow(s: State, branch: nat, day: nat, item: nat): Log {
    Log(branch, item, RESTOCK_TO - Stock(s.inventory, branch, item), RESTOCK, day)
  }

  /** One row for each of the items that is low, in menu order, and no other. */
  function RestockRows(s: State, branch: nat, day: nat, items: seq<nat>): seq<Log> {
    if items == [] then []
    else
      var item := items[|items| - 1];
      RestockRows(s, branch, day, items[..|items| - 1])
        + if Stock(s.inventory, branch, item) < REORDER_BELOW then [RestockRow(s, branch, day, item)] else []
  }

  lemma {:induction false} RowsAreOfLowItems(s: State, branch: nat, day: nat, items: seq<nat>)
    requires Different(items)
    ensures var rows := RestockRows(s, branch, day, items);
      && (forall k :: 0 <= k < |rows| ==>
            rows[k].item in items && Stock(s.inventory, branch, rows[k].item) < REORDER_BELOW
            && rows[k] == RestockRow(s, branch, day, rows[k].item))
      && (forall j, k :: 0 <= j < k < |rows| ==> rows[j].item != rows[k].item)
      && (forall i :: i in items && Stock(s.inventory, branch, i) < REORDER_BELOW ==>
        RestockRow(s, branch, day, i) in rows)
  {
    if items != [] {
      var n := |items| - 1;
      RowsAreOfLowItems(s, branch, day, items[..n]);
      assert items[n] !in items[..n];
      assert forall i :: i in items <==> i in items[..n] || i == items[n];
    }
  }

  lemma RowsGrow(s: State, branch: nat, day: nat, items: seq<nat>, n: nat)
    requires n < |items|
    ensures RestockRows(s, branch, day, items[..n + 1]) ==
            RestockRows(s, branch, day, items[..n])
              + (if Stock(s.inventory, branch, items[n]) < REORDER_BELOW
                 then [RestockRow(s, branch, day, items[n])] else [])
  {
    assert items[..n + 1][..n] == items[..n];
  }

  ghost predicate HasRows(s: State, t: State, branch: nat, day: nat, items: seq<nat>) {
    t.logs == s.logs + RestockRows(s, branch, day, items)
  }

  ghost predicate HasStocks(s: State, t: State, branch: nat, items: seq<nat>) {
    forall b, i :: Stock(t.inventory, b, i) ==
      if b == branch && i in items then Refilled(Stock(s.inventory, b, i)) else Stock(s.inventory, b, i)
  }

  /** A row posted for one more item, or nothing if it is not low. */
  lemma StocksGrow(s: State, t: State, branch: nat, day: nat, items: seq<nat>, item: nat, t': State)
    requires HasStocks(s, t, branch, items) && item !in items
    requires t' ==
      if Stock(s.inventory, branch, item) < REORDER_BELOW then Post(t, RestockRow(s, branch, day, item)) else t
    ensures HasStocks(s, t', branch, items + [item])
  {
    assert forall i :: i in items + [item] <==> i in items || i == item;
  }

  ghost predicate Filled(menu: Menu, s: State, branch: nat, day: nat, n: nat)
    requires n <= |menu.items|
  {
    var t, items := RestockItems(menu, s, branch, day, n).s, menu.items[..n];
    HasRows(s, t, branch, day, items) && HasStocks(s, t, branch, items)
  }

  lemma RestockOne(menu: Menu, s: State, branch: nat, day: nat, n: nat)
    requires Different(menu.items) && n < |menu.items| && Filled(menu, s, branch, day, n)
    ensures Filled(menu, s, branch, day, n + 1)
  {
    hide RestockRows, Worth, Cost, Stock, HasStocks, Different;
    var item, before := menu.items[n], menu.items[..n];
    assert menu.items[..n + 1] == before + [item];
    assert item !in before by { NotBefore(menu.items, n); }
    var t, t' := RestockItems(menu, s, branch, day, n).s, RestockItems(menu, s, branch, day, n + 1).s;
    StockUntouched(s, t, branch, before, item);
    RowsGrow(s, branch, day, menu.items, n);
    StocksGrow(s, t, branch, day, before, item, t');
  }

  lemma NotBefore(items: seq<nat>, n: nat)
    requires Different(items) && n < |items|
    ensures items[n] !in items[..n]
  {
  }

  lemma {:induction false} RestockIsFilled(menu: Menu, s: State, branch: nat, day: nat, n: nat)
    requires Different(menu.items) && n <= |menu.items|
    ensures Filled(menu, s, branch, day, n)
  {
    hide Filled;
    if n == 0 {
      NothingFilled(menu, s, branch, day);
    } else {
      RestockIsFilled(menu, s, branch, day, n - 1);
      RestockOne(menu, s, branch, day, n - 1);
    }
  }

  lemma NothingFilled(menu: Menu, s: State, branch: nat, day: nat)
    ensures Filled(menu, s, branch, day, 0)
  {
    hide Stock, Refilled;
    assert menu.items[..0] == [];
  }

  lemma StockUntouched(s: State, t: State, branch: nat, items: seq<nat>, item: nat)
    requires HasStocks(s, t, branch, items) && item !in items
    ensures Stock(t.inventory, branch, item) == Stock(s.inventory, branch, item)
  {
  }

  /** After a restock every item on the menu that was low is at the restock level and has
      exactly one new log row, for that branch and day and with what was missing; every other
      stock is as it was, and there is no other new row. */
  lemma RestockFills(menu: Menu, s: State, branch: nat, day: nat, n: nat)
    requires Different(menu.items) && n <= |menu.items|
    ensures var t := RestockItems(menu, s, branch, day, n).s;
      && s.logs <= t.logs
      && var rows := t.logs[|s.logs|..];
        && (forall k :: 0 <= k < |rows| ==>
              rows[k].item in menu.items[..n] && Stock(s.inventory, branch, rows[k].item) < 150
              && rows[k] == Log(branch, rows[k].item, 500 - Stock(s.inventory, branch, rows[k].item), RESTOCK, day))
        && (forall j, k :: 0 <= j < k < |rows| ==> rows[j].item != rows[k].item)
        && (forall i :: i in menu.items[..n] && Stock(s.inventory, branch, i) < 150 ==>
              Log(branch, i, 500 - Stock(s.inventory, branch, i), RESTOCK, day) in rows)
        && (forall b, i :: Stock(t.inventory, b, i) ==
              if b == branch && i in menu.items[..n] && Stock(s.inventory, b, i) < 150 then 500
              else Stock(s.inventory, b, i))
  {
    hide RestockItems, RestockRows, Stock;
    RestockIsFilled(menu, s, branch, day, n);
    var items := menu.items[..n];
    assert Different(items);
    RowsAreOfLowItems(s, branch, day, items);
    assert RestockItems(menu, s, branch, day, n).s.logs[|s.logs|..] == RestockRows(s, branch, day, items);
  }

  // ---------- the month-end base is the sales since the last month end ----------

  lemma SalesMore(sales: seq<Sale>, x: Sale, b: nat, first: nat, end: nat)
    ensures SalesIn(sales + [x], b, first, end) ==
            SalesIn(sales, b, first, end) + if x.branch == b && first <= x.day < end then x.total else 0.0
  {
    assert (sales + [x])[..|sales|] == sales;
  }

  ghost predicate SoldBefore(sales: seq<Sale>, day: nat) {
    forall i :: 0 <= i < |sales| ==> sales[i].day < day
  }

  lemma {:induction false} NoSales(sales: seq<Sale>, b: nat, first: nat, mid: nat, end: nat)
    requires SoldBefore(sales, mid) && first <= mid <= end
    ensures SalesIn(sales, b, first, end) == SalesIn(sales, b, first, mid)
    ensures SalesIn(sales, b, mid, end) == 0.0
  {
    if sales != [] { NoSales(sales[..|sales| - 1], b, first, mid, end); }
  }

  /** From s to t the branch sold on that day, and its revenue grew by what it sold. */
  ghost predicate SoldOn(s: State, t: State, branch: nat, day: nat) {
    && t.expenses == s.expenses
    && (SoldBefore(s.sales, day + 1) ==> SoldBefore(t.sales, day + 1))
    && (forall b :: b != branch ==> Revenue(t.revenue, b) == Revenue(s.revenue, b))
    && (forall b: nat, first: nat, end: nat :: b != branch || end <= day ==>
      SalesIn(t.sales, b, first, end) == SalesIn(s.sales, b, first, end))
    && (forall first: nat, end: nat :: first <= day < end ==>
          Revenue(t.revenue, branch) - SalesIn(t.sales, branch, first, end) ==
            Revenue(s.revenue, branch) - SalesIn(s.sales, branch, first, end))
  }

  lemma {:induction false} DeductKeeps(s: State, branch: nat, day: nat, lines: seq<Line>, n: nat)
    requires n <= |lines|
    ensures var t := Deduct(s, branch, day, lines, n);
      t.expenses == s.expenses && t.sales == s.sales && t.revenue == s.revenue
  {
    if n > 0 { DeductKeeps(s, branch, day, lines, n - 1); }
  }

  lemma SellOrderSells(s: State, branch: nat, day: nat, order: Order)
    ensures SoldOn(s, SellOrder(s, branch, day, order), branch, day)
  {
    hide Total, Deduct, SalesIn;
    var sale := Sale(branch, day, Total(order));
    var sold := s.(revenue := s.revenue[branch := Revenue(s.revenue, branch) + Total(order)],
      sales := s.sales + [sale]);
    DeductKeeps(sold, branch, day, order.lines, |order.lines|);
    forall b: nat, first: nat, end: nat ensures SalesIn(s.sales + [sale], b, first, end) ==
      SalesIn(s.sales, b, first, end) + if branch == b && first <= day < end then sale.total else 0.0
    {
      SalesMore(s.sales, sale, b, first, end);
    }
  }

  lemma SoldOnTwice(s: State, t: State, u: State, branch: nat, day: nat)
    requires SoldOn(s, t, branch, day) && SoldOn(t, u, branch, day)
    ensures SoldOn(s, u, branch, day)
  {
    hide SalesIn, SoldBefore, Revenue;
  }

  lemma {:induction false} SellOrdersSell(s: State, branch: nat, day: nat, orders: seq<Order>, n: nat)
    requires n <= |orders|
    ensures SoldOn(s, SellOrders(s, branch, day, orders, n), branch, day)
  {
    hide SoldOn, SellOrder;
    if n == 0 {
      NothingSold(s, branch, day);
    } else {
      var t := SellOrders(s, branch, day, orders, n - 1);
      SellOrdersSell(s, branch, day, orders, n - 1);
      SellOrderSells(t, branch, day, orders[n - 1]);
      SoldOnTwice(s, t, SellOrder(t, branch, day, orders[n - 1]), branch, day);
    }
  }

  lemma NothingSold(s: State, branch: nat, day: nat)
    ensures SoldOn(s, s, branch, day)
  {
  }

  lemma {:induction false} RestockKeeps(menu: Menu, s: State, branch: nat, day: nat, n: nat)
    requires n <= |menu.items|
    ensures var t := RestockItems(menu, s, branch, day, n).s;
      t.expenses == s.expenses && t.sales == s.sales && t.revenue == s.revenue
  {
    if n > 0 { RestockKeeps(menu, s, branch, day, n - 1); }
  }

  /** A branch's share for marketing, at that day's rate for it. */
  ghost predicate Marketed(d: Day, branches: seq<Branch>, e: Expense, base: real) {
    exists m :: 0 <= m < |branches| && m < |d.rates| && branches[m] == e.branch && e.amount == Share(base, d.rates[m])
  }

  /** A monthly bill is for a month end, and charges the branch's sales since the month end
      before. */
  ghost predicate BillRight(days: seq<Day>, branches: seq<Branch>, sales: seq<Sale>, e: Expense) {
    && e.day < |days| && days[e.day].lastOfMonth
    && var base := SalesIn(sales, e.branch.id, MonthStart(days, e.day), e.day + 1);
      && (e.kind == UTILITIES ==> e.amount == UtilityBill(e.branch.sqm, base))
      && (e.kind == MARKETING ==> Marketed(days[e.day], branches, e, base))
  }

  ghost predicate IsBill(e: Expense, kind: Kind, branch: nat, day: nat) {
    e.kind == kind && e.branch.id == branch && e.day == day
  }

  ghost predicate HasBill(expenses: seq<Expense>, kind: Kind, branch: nat, day: nat) {
    exists k :: 0 <= k < |expenses| && IsBill(expenses[k], kind, branch, day)
  }

  ghost predicate Billed(expenses: seq<Expense>, branch: nat, day: nat) {
    HasBill(expenses, UTILITIES, branch, day) && HasBill(expenses, MARKETING, branch, day)
  }

  /** No month end of a branch whose day is done went without a bill. */
  ghost predicate AllBilled(days: seq<Day>, branches: seq<Branch>, expenses: seq<Expense>, d: nat, n: nat)
    requires d < |days| && n <= |branches|
  {
    forall m: nat, d': nat :: m < |branches| && (d' < d || (d' == d && m < n)) && days[d'].lastOfMonth ==>
      Billed(expenses, branches[m].id, d')
  }

  lemma BillStays(expenses: seq<Expense>, more: seq<Expense>, kind: Kind, branch: nat, day: nat)
    requires expenses <= more && HasBill(expenses, kind, branch, day)
    ensures HasBill(more, kind, branch, day)
  {
    var k :| 0 <= k < |expenses| && IsBill(expenses[k], kind, branch, day);
    assert IsBill(more[k], kind, branch, day);
  }

  lemma BilledStays(days: seq<Day>, branches: seq<Branch>, expenses: seq<Expense>, more: seq<Expense>, d: nat, n: nat)
    requires d < |days| && n <= |branches| && AllBilled(days, branches, expenses, d, n) && expenses <= more
    ensures AllBilled(days, branches, more, d, n)
  {
    forall m: nat, d': nat | m < |branches| && (d' < d || (d' == d && m < n)) && days[d'].lastOfMonth
      ensures Billed(more, branches[m].id, d')
    {
      assert Billed(expenses, branches[m].id, d');
      BillStays(expenses, more, UTILITIES, branches[m].id, d');
      BillStays(expenses, more, MARKETING, branches[m].id, d');
    }
  }

  lemma BilledNow(days: seq<Day>, branches: seq<Branch>, s: State, d: nat, n: nat, rate: real)
    requires d < |days| && n < |branches| && AllBilled(days, branches, s.expenses, d, n)
    ensures AllBilled(days, branches, (if days[d].lastOfMonth then CloseMonth(s, branches[n], d, rate) else s).expenses,
      d, n + 1)
  {
    hide UtilityBill, Share, HasBill;
    if days[d].lastOfMonth {
      var t := CloseMonth(s, branches[n], d, rate);
      BilledStays(days, branches, s.expenses, t.expenses, d, n);
      assert Billed(t.expenses, branches[n].id, d) by {
        BillWritten(t.expenses, |s.expenses|, UTILITIES, branches[n].id, d);
        BillWritten(t.expenses, |s.expenses| + 1, MARKETING, branches[n].id, d);
      }
    }
  }

  lemma BillWritten(expenses: seq<Expense>, k: nat, kind: Kind, branch: nat, day: nat)
    requires k < |expenses| && IsBill(expenses[k], kind, branch, day)
    ensures HasBill(expenses, kind, branch, day)
  {
  }

  /** On day d, with the first n branches done. */
  ghost predicate Accounts(days: seq<Day>, branches: seq<Branch>, s: State, d: nat, n: nat)
    requires d < |days| && n <= |branches|
  {
    && SoldBefore(s.sales, d + 1)
    && AllBilled(days, branches, s.expenses, d, n)
    && (forall m :: 0 <= m < |branches| ==>
          Revenue(s.revenue, branches[m].id) ==
          SalesIn(s.sales, branches[m].id, MonthStart(days, if m < n then d + 1 else d), d + 1))
    && (forall k :: 0 <= k < |s.expenses| && s.expenses[k].kind != PO ==>
          BillRight(days, branches, s.sales, s.expenses[k])
          && (s.expenses[k].day < d ||
            (s.expenses[k].day == d && exists m :: 0 <= m < n && branches[m].id == s.expenses[k].branch.id)))
  }

  ghost predicate DistinctIds(branches: seq<Branch>) {
    forall i, j :: 0 <= i < j < |branches| ==> branches[i].id != branches[j].id
  }

  /** Rows and revenue a restock leaves behind; only a purchase order is new. */
  lemma RestockAccounts(days: seq<Day>, branches: seq<Branch>, menu: Menu, s: State, d: nat, n: nat)
    requires d < |days| && n < |branches| && Accounts(days, branches, s, d, n)
    ensures Accounts(days, branches, Restock(menu, s, branches[n], d), d, n)
  {
    hide BillRight, SalesIn, MonthStart, Revenue, RestockItems, AllBilled;
    RestockKeeps(menu, s, branches[n].id, d, |menu.items|);
    BilledStays(days, branches, s.expenses, Restock(menu, s, branches[n], d).expenses, d, n);
  }

  lemma SalesAccounts(days: seq<Day>, branches: seq<Branch>, s: State, t: State, d: nat, n: nat)
    requires d < |days| && n < |branches| && DistinctIds(branches)
    requires Accounts(days, branches, s, d, n) && SoldOn(s, t, branches[n].id, d)
    ensures Accounts(days, branches, t, d, n)
  {
    hide SalesIn, Revenue, AllBilled;
    forall m | 0 <= m < |branches|
      ensures Revenue(t.revenue, branches[m].id) ==
              SalesIn(t.sales, branches[m].id, MonthStart(days, if m < n then d + 1 else d), d + 1)
    {
      if m != n { assert branches[m].id != branches[n].id; }
    }
    forall k | 0 <= k < |t.expenses| && t.expenses[k].kind != PO
      ensures BillRight(days, branches, t.sales, t.expenses[k])
    {
      assert BillRight(days, branches, s.sales, s.expenses[k]);
    }
  }

  /** The month ends for the branch, or it does not: its day is done. */
  lemma DoneAccounts(days: seq<Day>, branches: seq<Branch>, s: State, d: nat, n: nat, rate: real)
    requires d < |days| && n < |branches| && DistinctIds(branches) && Accounts(days, branches, s, d, n)
    requires n < |days[d].rates| && rate == days[d].rates[n]
    ensures Accounts(days, branches, if days[d].lastOfMonth then CloseMonth(s, branches[n], d, rate) else s, d, n + 1)
  {
    hide SalesIn, UtilityBill, Share, AllBilled;
    BilledNow(days, branches, s, d, n, rate);
    var t := if days[d].lastOfMonth then CloseMonth(s, branches[n], d, rate) else s;
    NoSales(s.sales, branches[n].id, 0, d + 1, d + 1);
    forall m | 0 <= m < |branches|
      ensures Revenue(t.revenue, branches[m].id) ==
              SalesIn(t.sales, branches[m].id, MonthStart(days, if m < n + 1 then d + 1 else d), d + 1)
    {
      if m != n { assert branches[m].id != branches[n].id; }
    }
    forall k | 0 <= k < |t.expenses| && t.expenses[k].kind != PO
      ensures BillRight(days, branches, t.sales, t.expenses[k])
      ensures t.expenses[k].day < d ||
        (t.expenses[k].day == d && exists m :: 0 <= m < n + 1 && branches[m].id == t.expenses[k].branch.id)
    {
      if k < |s.expenses| { assert t.expenses[k] == s.expenses[k]; }
      else { assert t.expenses[k].branch == branches[n]; }
    }
  }

  lemma BranchDayAccounts(days: seq<Day>, branches: seq<Branch>, menu: Menu, s: State, d: nat, n: nat,
      orders: seq<Order>, rate: real)
    requires d < |days| && n < |branches| && DistinctIds(branches) && Accounts(days, branches, s, d, n)
    requires n < |days[d].rates| && rate == days[d].rates[n]
    ensures Accounts(days, branches, BranchDay(menu, s, branches[n], d, days[d], orders, rate), d, n + 1)
  {
    hide Accounts, Restock, SellOrders, CloseMonth, DistinctIds;
    if days[d].monday { RestockAccounts(days, branches, menu, s, d, n); }
    var restocked := if days[d].monday then Restock(menu, s, branches[n], d) else s;
    var sold := SellOrders(restocked, branches[n].id, d, orders, |orders|);
    SellOrdersSell(restocked, branches[n].id, d, orders, |orders|);
    SalesAccounts(days, branches, restocked, sold, d, n);
    DoneAccounts(days, branches, sold, d, n, rate);
  }

  lemma {:induction false} BranchesAccounts(days: seq<Day>, branches: seq<Branch>, menu: Menu, s: State, d: nat, n: nat)
    requires d < |days| && DayFits(branches, days[d]) && n <= |branches| && DistinctIds(branches)
    requires Accounts(days, branches, s, d, 0)
    ensures Accounts(days, branches, Branches(menu, branches, s, d, days[d], n), d, n)
  {
    hide Accounts, BranchDay, DistinctIds;
    if n > 0 {
      BranchesAccounts(days, branches, menu, s, d, n - 1);
      BranchDayAccounts(days, branches, menu, Branches(menu, branches, s, d, days[d], n - 1), d, n - 1,
                        days[d].orders[n - 1], days[d].rates[n - 1]);
    }
  }

  lemma NextDay(days: seq<Day>, branches: seq<Branch>, s: State, d: nat)
    requires d + 1 < |days| && Accounts(days, branches, s, d, |branches|)
    ensures Accounts(days, branches, s, d + 1, 0)
  {
    hide SalesIn, MonthStart, BillRight, Revenue, Billed;
    forall m | 0 <= m < |branches|
      ensures Revenue(s.revenue, branches[m].id) == SalesIn(s.sales, branches[m].id, MonthStart(days, d + 1), d + 2)
    {
      NoSales(s.sales, branches[m].id, MonthStart(days, d + 1), d + 1, d + 2);
    }
  }

  lemma {:induction false} RunAccounts(days: seq<Day>, branches: seq<Branch>, menu: Menu, s: State, n: nat)
    requires DaysFit(branches, days) && 0 < n <= |days| && DistinctIds(branches)
    requires s.sales == [] && s.expenses == [] && forall b :: Revenue(s.revenue, b) == 0.0
    ensures Accounts(days, branches, RunTo(menu, branches, s, days, n), n - 1, |branches|)
  {
    hide Accounts, Branches, DistinctIds;
    if n == 1 {
      FirstDay(days, branches, s);
      assert RunTo(menu, branches, s, days, 0) == s;
    } else {
      RunAccounts(days, branches, menu, s, n - 1);
      NextDay(days, branches, RunTo(menu, branches, s, days, n - 1), n - 2);
    }
    BranchesAccounts(days, branches, menu, RunTo(menu, branches, s, days, n - 1), n - 1, |branches|);
  }

  lemma FirstDay(days: seq<Day>, branches: seq<Branch>, s: State)
    requires |days| > 0 && s.sales == [] && s.expenses == [] && forall b :: Revenue(s.revenue, b) == 0.0
    ensures Accounts(days, branches, s, 0, 0)
  {
  }

  /** Whole runs: at every month end every branch gets both bills, each is charged on the
      branch's order totals since the month end before, and what a branch's revenue holds is
      its sales since the last month end. */
  lemma {:induction false} BillsAreSalesSinceMonthEnd(days: seq<Day>, branches: seq<Branch>, menu: Menu, s: State,
      n: nat, k: nat, m: nat)
    requires DaysFit(branches, days) && 0 < n <= |days| && DistinctIds(branches)
    requires s.sales == [] && s.expenses == [] && forall b :: Revenue(s.revenue, b) == 0.0
    ensures var t := RunTo(menu, branches, s, days, n);
      && (k < |t.expenses| && t.expenses[k].kind != PO ==> BillRight(days, branches, t.sales, t.expenses[k]))
      && (m < |branches| ==>
            Revenue(t.revenue, branches[m].id) == SalesIn(t.sales, branches[m].id, MonthStart(days, n), n))
      && (m < |branches| ==> forall d: nat :: d < n && days[d].lastOfMonth ==> Billed(t.expenses, branches[m].id, d))
  {
    hide RunTo, BillRight, SalesIn, MonthStart, Revenue, Billed;
    RunAccounts(days, branches, menu, s, n);
  }
}

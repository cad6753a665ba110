/** The generator's nested loops over its dictionaries and day lists, proved to keep the
    books that Ledger describes. */
module LedgerRun {
  import opened Ledger

  /** The dictionaries, the tables in the database, and the lists of the current day. */
  class Books {
    var inventoryState: map<(nat, nat), int>
    var monthlyRevenue: map<nat, real>
    var logTable: seq<Log>
    var expenseTable: seq<Expense>
    var saleTable: seq<Sale>
    var invLogs: seq<Log>
    var dailyExpenses: seq<Expense>
    var dayRows: seq<Sale>

    constructor (inventory: map<(nat, nat), int>, revenue: map<nat, real>)
      ensures Holds(State(inventory, revenue, [], [], [])) && DayEmpty()
    {
      inventoryState, monthlyRevenue := inventory, revenue;
      logTable, expenseTable, saleTable := [], [], [];
      invLogs, dailyExpenses, dayRows := [], [], [];
    }

    ghost predicate Holds(s: State)
      reads this
    {
      && inventoryState == s.inventory
      && monthlyRevenue == s.revenue
      && logTable + invLogs == s.logs
      && expenseTable + dailyExpenses == s.expenses
      && saleTable + dayRows == s.sales
    }

    ghost predicate DayEmpty()
      reads this
    {
      invLogs == [] && dailyExpenses == [] && dayRows == []
    }

    /** Every lookup the loops make finds its key. */
    ghost predicate Knows(menu: Menu, branches: seq<Branch>)
      reads this
    {
      && (forall b, i :: b in branches && i in menu.items ==> (b.id, i) in inventoryState)
      && (forall b :: b in branches ==> b.id in monthlyRevenue)
      && (forall i :: i in menu.items ==> i in menu.costs)
    }

    /** One stock change and its log row. */
    method Move(menu: Menu, branches: seq<Branch>, branch: Branch, item: nat, change: int, reason: Reason, day: nat,
        ghost s: State)
      requires branch in branches && item in menu.items && Knows(menu, branches) && Holds(s)
      modifies `inventoryState, `invLogs
      ensures Knows(menu, branches) && Holds(Post(s, Log(branch.id, item, change, reason, day)))
    {
      inventoryState := inventoryState[(branch.id, item) := inventoryState[(branch.id, item)] + change];
      invLogs := invLogs + [Log(branch.id, item, change, reason, day)];
    }

    method CurrentStock(menu: Menu, branches: seq<Branch>, branch: Branch, item: nat, ghost s: State)
        returns (stock: int, cost: real)
      requires branch in branches && item in menu.items && Knows(menu, branches) && Holds(s)
      ensures stock == Stock(s.inventory, branch.id, item) && cost == Cost(menu, item)
    {
      stock, cost := inventoryState[(branch.id, item)], menu.costs[item];
    }

    method WeeklyRestock(menu: Menu, branches: seq<Branch>, branch: Branch, day: nat, ghost s: State)
      requires branch in branches && Knows(menu, branches) && Holds(s)
      modifies this
      ensures Knows(menu, branches) && Holds(Restock(menu, s, branch, day))
      ensures logTable == old(logTable) && expenseTable == old(expenseTable) && saleTable == old(saleTable)
    {
      hide Worth, Post, Cost, Stock;
      var poTotal := 0.0;
      for n := 0 to |menu.items|
        invariant Knows(menu, branches)
        invariant var r := RestockItems(menu, s, branch.id, day, n); Holds(r.s) && r.total == poTotal
        invariant logTable == old(logTable) && expenseTable == old(expenseTable) && saleTable == old(saleTable)
      {
        hide Holds, Knows;
        var item := menu.items[n];
        ghost var before := RestockItems(menu, s, branch.id, day, n).s;
        var currentStock, cost := CurrentStock(menu, branches, branch, item, before);
        if currentStock < REORDER_BELOW {
          var restockQty := RESTOCK_TO - currentStock;
          Move(menu, branches, branch, item, restockQty, RESTOCK, day, before);
          poTotal := poTotal + Worth(restockQty, cost);
        }
      }
      if poTotal > 0.0 {
        dailyExpenses := dailyExpenses + [Expense(branch, PO, poTotal, day)];
      }
    }

    method TakeOrder(menu: Menu, branches: seq<Branch>, branch: Branch, day: nat, order: Order, ghost s: State)
      requires branch in branches && Knows(menu, branches) && Holds(s)
      requires forall i :: 0 <= i < |order.lines| ==> order.lines[i].item in menu.items
      modifies this
      ensures Knows(menu, branches) && Holds(SellOrder(s, branch.id, day, order))
      ensures logTable == old(logTable) && expenseTable == old(expenseTable) && saleTable == old(saleTable)
    {
      hide Worth, Post;
      var raw := RawOf(order.lines);
      var total := if raw - order.discount > 0.0 then raw - order.discount else 0.0;
      monthlyRevenue := monthlyRevenue[branch.id := monthlyRevenue[branch.id] + total];
      dayRows := dayRows + [Sale(branch.id, day, total)];
      ghost var sold := s.(revenue := s.revenue[branch.id := Revenue(s.revenue, branch.id) + Total(order)],
                           sales := s.sales + [Sale(branch.id, day, Total(order))]);
      for n := 0 to |order.lines|
        invariant Knows(menu, branches) && Holds(Deduct(sold, branch.id, day, order.lines, n))
        invariant logTable == old(logTable) && expenseTable == old(expenseTable) && saleTable == old(saleTable)
      {
        hide Holds, Knows;
        var line := order.lines[n];
        Move(menu, branches, branch, line.item, -line.qty, SALE, day, Deduct(sold, branch.id, day, order.lines, n));
      }
    }

    static method RawOf(lines: seq<Line>) returns (raw: real)
      ensures raw == Raw(lines)
    {
      hide Worth;
      raw := 0.0;
      for n := 0 to |lines|
        invariant raw == Raw(lines[..n])
      {
        assert lines[..n + 1][..n] == lines[..n];
        raw := raw + Worth(lines[n].qty, lines[n].price);
      }
      assert lines[..|lines|] == lines;
    }

    method MonthEnd(menu: Menu, branches: seq<Branch>, branch: Branch, day: nat, rate: real, ghost s: State)
      requires branch in branches && Knows(menu, branches) && Holds(s)
      modifies this
      ensures Knows(menu, branches) && Holds(CloseMonth(s, branch, day, rate))
      ensures logTable == old(logTable) && expenseTable == old(expenseTable) && saleTable == old(saleTable)
    {
      hide UtilityBill, Share;
      var rev := monthlyRevenue[branch.id];
      dailyExpenses := dailyExpenses + [Expense(branch, UTILITIES, UtilityBill(branch.sqm, rev), day)];
      dailyExpenses := dailyExpenses + [Expense(branch, MARKETING, Share(rev, rate), day)];
      monthlyRevenue := monthlyRevenue[branch.id := 0.0];
    }

    /** Every order line names an item on the menu. */
    ghost predicate OnMenu(menu: Menu, orders: seq<Order>) {
      forall n :: 0 <= n < |orders| ==> forall i :: 0 <= i < |orders[n].lines| ==> orders[n].lines[i].item in menu.items
    }

    method RunBranch(menu: Menu, branches: seq<Branch>, branch: Branch, day: nat, d: Day, orders: seq<Order>,
        rate: real, ghost s: State)
      requires branch in branches && Knows(menu, branches) && Holds(s) && OnMenu(menu, orders)
      modifies this
      ensures Knows(menu, branches) && Holds(BranchDay(menu, s, branch, day, d, orders, rate))
      ensures logTable == old(logTable) && expenseTable == old(expenseTable) && saleTable == old(saleTable)
    {
      hide Restock, SellOrder, CloseMonth, Holds, Knows;
      if d.monday { WeeklyRestock(menu, branches, branch, day, s); }
      ghost var restocked := if d.monday then Restock(menu, s, branch, day) else s;
      for n := 0 to |orders|
        invariant Knows(menu, branches) && Holds(SellOrders(restocked, branch.id, day, orders, n))
        invariant logTable == old(logTable) && expenseTable == old(expenseTable) && saleTable == old(saleTable)
      {
        TakeOrder(menu, branches, branch, day, orders[n], SellOrders(restocked, branch.id, day, orders, n));
      }
      if d.lastOfMonth {
        MonthEnd(menu, branches, branch, day, rate, SellOrders(restocked, branch.id, day, orders, |orders|));
      }
    }

    /** The day's lists start empty and end in the tables. */
    method RunDay(menu: Menu, branches: seq<Branch>, day: nat, d: Day, ghost s: State)
      requires DayFits(branches, d) && Knows(menu, branches) && Holds(s) && DayEmpty()
      requires forall n :: 0 <= n < |branches| ==> OnMenu(menu, d.orders[n])
      modifies this
      ensures Knows(menu, branches) && Holds(Branches(menu, branches, s, day, d, |branches|)) && DayEmpty()
    {
      hide BranchDay, Knows, OnMenu;
      for n := 0 to |branches|
        invariant Knows(menu, branches) && Holds(Branches(menu, branches, s, day, d, n))
      {
        RunBranch(menu, branches, branches[n], day, d, d.orders[n], d.rates[n], Branches(menu, branches, s, day, d, n));
      }
      Flush(menu, branches);
    }

    method Flush(ghost menu: Menu, ghost branches: seq<Branch>)
      modifies this
      ensures inventoryState == old(inventoryState) && monthlyRevenue == old(monthlyRevenue) && DayEmpty()
      ensures old(Knows(menu, branches)) ==> Knows(menu, branches)
      ensures logTable == old(logTable + invLogs)
      ensures expenseTable == old(expenseTable + dailyExpenses)
      ensures saleTable == old(saleTable + dayRows)
    {
      expenseTable, dailyExpenses := expenseTable + dailyExpenses, [];
      saleTable, dayRows := saleTable + dayRows, [];
      logTable, invLogs := logTable + invLogs, [];
    }

    /** All days.  The stock levels handed back for the final update are the initial ones
        plus everything in the log table. */
    method GenerateData(menu: Menu, branches: seq<Branch>, days: seq<Day>, ghost s: State)
      returns (synced: map<(nat, nat), int>)
      requires DaysFit(branches, days) && Knows(menu, branches) && Holds(s) && DayEmpty()
      requires s.logs == [] && s.expenses == []
      requires forall k :: 0 <= k < |days| ==> forall n :: 0 <= n < |branches| ==> OnMenu(menu, days[k].orders[n])
      modifies this
      ensures Holds(RunTo(menu, branches, s, days, |days|)) && DayEmpty()
      ensures forall b, i :: Stock(synced, b, i) == Stock(s.inventory, b, i) + Change(logTable, b, i)
      ensures CostsNonNegative(menu) ==>
        forall b, d :: Ordered(expenseTable, b, d) == RestockValue(menu, logTable, b, d)
    {
      hide Branches, Knows, OnMenu, Change, Ordered, RestockValue;
      for k := 0 to |days|
        invariant Knows(menu, branches) && Holds(RunTo(menu, branches, s, days, k)) && DayEmpty()
      {
        RunDay(menu, branches, k, days[k], RunTo(menu, branches, s, days, k));
      }
      RunBalances(menu, branches, s, days, |days|);
      assert logTable + invLogs == logTable && expenseTable + dailyExpenses == expenseTable;
      synced := inventoryState;
    }
  }
}

// The finance dashboard's figures: the stats cards' totals (received and
// paid amounts, the expected ones, profit and margin) and the chart series
// (per month, expenses per category, revenue per source).

module Finance {

  import opened Strings
  import opened FinanceTypes
  import opened Grouping

  /** `data ?? []` for a query result. */
  function Rows<T>(data: Option<seq<T>>): seq<T> {
    if data.Some? then data.value else []
  }

  /** The sum of the amounts of the transactions of type `ty` and status
    * `st`. */
  function Amount(ts: seq<Transaction>, ty: TransactionType, st: Status): real
    decreases |ts|
  {
    if ts == [] then 0.0
    else
      var t := ts[|ts| - 1];
      Amount(ts[..|ts| - 1], ty, st) + (if t.ttype == ty && t.status == st then t.amount else 0.0)
  }

  lemma AmountAppend(ts: seq<Transaction>, t: Transaction, ty: TransactionType, st: Status)
    ensures Amount(ts + [t], ty, st) == Amount(ts, ty, st) + (if t.ttype == ty && t.status == st then t.amount else 0.0)
  {
    assert (ts + [t])[..|ts|] == ts;
  }

  // ---------------------------------------------------------------------
  // The stats cards

  datatype Stats = Stats(totalReceita: real, totalDespesa: real, lucroLiquido: real, margem: real,
                         receitaPrevista: real, despesaPrevista: real)

  /** Profit as a percentage of revenue, 0 without revenue. */
  function Margin(profit: real, revenue: real): real {
    if revenue > 0.0 then profit / revenue * 100.0 else 0.0
  }

  /** The figures of a list of transactions: received revenue, paid
    * expenses, the expected ones of both, their difference and the margin. */
  function StatsOf(ts: seq<Transaction>): Stats {
    var received := Amount(ts, Receita, Recebido);
    var paid := Amount(ts, Despesa, Pago);
    Stats(received, paid, received - paid, Margin(received - paid, received),
          Amount(ts, Receita, Previsto), Amount(ts, Despesa, Previsto))
  }

  /** `useFinanceStats`: one pass over the rows, each adding its amount to
    * at most one figure; a missing result gives zeros. */
  method ComputeStats(data: Option<seq<Transaction>>) returns (stats: Stats)
    ensures stats == StatsOf(Rows(data))
  {
    var ts := Rows(data);
    var totalReceita, totalDespesa, receitaPrevista, despesaPrevista := 0.0, 0.0, 0.0, 0.0;
    for i := 0 to |ts|
      invariant totalReceita == Amount(ts[..i], Receita, Recebido)
      invariant receitaPrevista == Amount(ts[..i], Receita, Previsto)
      invariant totalDespesa == Amount(ts[..i], Despesa, Pago)
      invariant despesaPrevista == Amount(ts[..i], Despesa, Previsto)
    {
      var t := ts[i];
      if t.ttype == Receita {
        if t.status == Recebido {
          totalReceita := totalReceita + t.amount;
        } else if t.status == Previsto {
          receitaPrevista := receitaPrevista + t.amount;
        }
      } else {
        if t.status == Pago {
          totalDespesa := totalDespesa + t.amount;
        } else if t.status == Previsto {
          despesaPrevista := despesaPrevista + t.amount;
        }
      }
      assert ts[..i + 1] == ts[..i] + [t];
      AmountAppend(ts[..i], t, Receita, Recebido);
      AmountAppend(ts[..i], t, Receita, Previsto);
      AmountAppend(ts[..i], t, Despesa, Pago);
      AmountAppend(ts[..i], t, Despesa, Previsto);
    }
    assert ts[..|ts|] == ts;
    var lucro := totalReceita - totalDespesa;
    stats := Stats(totalReceita, totalDespesa, lucro, Margin(lucro, totalReceita), receitaPrevista, despesaPrevista);
  }

  /** Rows that count nowhere: cancelled ones, revenue marked paid and
    * expenses marked received leave every figure as it was. */
  lemma {:induction false} IgnoredRowsAddNothing(ts: seq<Transaction>, t: Transaction)
    requires t.status == Cancelado || (t.ttype == Receita && t.status == Pago) || (t.ttype == Despesa && t.status == Recebido)
    ensures StatsOf(ts + [t]) == StatsOf(ts)
  {
    AmountAppend(ts, t, Receita, Recebido);
    AmountAppend(ts, t, Receita, Previsto);
    AmountAppend(ts, t, Despesa, Pago);
    AmountAppend(ts, t, Despesa, Previsto);
  }

  predicate NonNegative(ts: seq<Transaction>) {
    forall i :: 0 <= i < |ts| ==> ts[i].amount >= 0.0
  }

  lemma {:induction false} AmountNonNegative(ts: seq<Transaction>, ty: TransactionType, st: Status)
    requires NonNegative(ts)
    ensures Amount(ts, ty, st) >= 0.0
    decreases |ts|
  {
    if ts != [] {
      AmountNonNegative(ts[..|ts| - 1], ty, st);
    }
  }

  /** With non-negative amounts the margin is at most 100, and it is 100
    * exactly when there is revenue and no paid expense. */
  lemma MarginAtMost100(ts: seq<Transaction>)
    requires NonNegative(ts)
    ensures StatsOf(ts).margem <= 100.0
    ensures StatsOf(ts).margem == 100.0 <==> StatsOf(ts).totalReceita > 0.0 && StatsOf(ts).totalDespesa == 0.0
  {
    var s := StatsOf(ts);
    AmountNonNegative(ts, Despesa, Pago);
    if s.totalReceita > 0.0 {
      var r, d := s.totalReceita, s.totalDespesa;
      assert (r - d) / r == r / r - d / r;
      assert r / r == 1.0;
      assert d / r >= 0.0;
      assert d / r == 0.0 <==> d == 0.0;
    }
  }

  // ---------------------------------------------------------------------
  // The chart series

  /** `date.substring(0, 7)`: the year and month of an ISO date. */
  function MonthOf(date: string): (r: string)
    ensures StartsWith(date, r) && |r| == if |date| < 7 then |date| else 7
  {
    if |date| <= 7 then date else date[..7]
  }

  /** A row's share of its month: received revenue as the first amount,
    * paid expense as the second; every row opens its month. */
  function MonthItem(t: Transaction): Item {
    Item(MonthOf(t.date), "",
         if t.ttype == Receita && t.status == Recebido then t.amount else 0.0,
         if t.ttype == Despesa && t.status == Pago then t.amount else 0.0)
  }

  function MonthItems(ts: seq<Transaction>): seq<Item>
    decreases |ts|
  {
    if ts == [] then [] else MonthItems(ts[..|ts| - 1]) + [MonthItem(ts[|ts| - 1])]
  }

  /** The category name of a row, "Outros" when it has none. */
  function CategoryName(t: Transaction): string {
    if t.category.Some? && t.category.value.name != "" then t.category.value.name else "Outros"
  }

  function CategoryColor(t: Transaction): string {
    if t.category.Some? && t.category.value.color != "" then t.category.value.color else "#78716C"
  }

  /** Paid expenses, by category name, with the category colour. */
  function ExpenseItems(ts: seq<Transaction>): seq<Item>
    decreases |ts|
  {
    if ts == [] then []
    else
      var t := ts[|ts| - 1];
      if t.ttype == Despesa && t.status == Pago then ExpenseItems(ts[..|ts| - 1]) + [Item(CategoryName(t), CategoryColor(t), t.amount, 0.0)]
      else ExpenseItems(ts[..|ts| - 1])
  }

  /** The key a revenue row is charted under: its source, "organico" when it
    * has none. */
  function SourceOf(t: Transaction): string {
    if t.source.Some? then SourceKey(t.source.value) else "organico"
  }

  /** Received revenue, by source. */
  function SourceItems(ts: seq<Transaction>): seq<Item>
    decreases |ts|
  {
    if ts == [] then []
    else
      var t := ts[|ts| - 1];
      if t.ttype == Receita && t.status == Recebido then SourceItems(ts[..|ts| - 1]) + [Item(SourceOf(t), "", t.amount, 0.0)]
      else SourceItems(ts[..|ts| - 1])
  }

  function Monthly(ts: seq<Transaction>): seq<Group> {
    SortByKey(Grouped(MonthItems(ts)))
  }

  /** The monthly record: every row adds to its month. */
  method MonthlyRecord(ts: seq<Transaction>) returns (gs: seq<Group>)
    ensures gs == Grouped(MonthItems(ts))
  {
    gs := [];
    for i := 0 to |ts|
      invariant gs == Grouped(MonthItems(ts[..i]))
    {
      assert ts[..i + 1][..i] == ts[..i];
      gs := AddItem(gs, MonthItem(ts[i]));
    }
    assert ts[..|ts|] == ts;
  }

  /** The expense record: only paid expenses, by category name. */
  method ExpensesRecord(ts: seq<Transaction>) returns (gs: seq<Group>)
    ensures gs == Grouped(ExpenseItems(ts))
  {
    gs := [];
    for i := 0 to |ts|
      invariant gs == Grouped(ExpenseItems(ts[..i]))
    {
      var t := ts[i];
      assert ts[..i + 1][..i] == ts[..i];
      if t.ttype == Despesa && t.status == Pago {
        var it := Item(CategoryName(t), CategoryColor(t), t.amount, 0.0);
        gs := AddItem(gs, it);
        assert ExpenseItems(ts[..i + 1]) == ExpenseItems(ts[..i]) + [it];
      }
    }
    assert ts[..|ts|] == ts;
  }

  /** The revenue record: only received revenue, by source. */
  method RevenueRecord(ts: seq<Transaction>) returns (gs: seq<Group>)
    ensures gs == Grouped(SourceItems(ts))
  {
    gs := [];
    for i := 0 to |ts|
      invariant gs == Grouped(SourceItems(ts[..i]))
    {
      var t := ts[i];
      assert ts[..i + 1][..i] == ts[..i];
      if t.ttype == Receita && t.status == Recebido {
        var it := Item(SourceOf(t), "", t.amount, 0.0);
        gs := AddItem(gs, it);
        assert SourceItems(ts[..i + 1]) == SourceItems(ts[..i]) + [it];
      }
    }
    assert ts[..|ts|] == ts;
  }

  /** `useChartData`: the three series of the rows; missing rows give three
    * empty series. The monthly one is sorted by month. */
  method ChartData(data: Option<seq<Transaction>>) returns (monthly: seq<Group>, expenses: seq<Group>, revenue: seq<Group>)
    ensures monthly == Monthly(Rows(data))
    ensures expenses == Grouped(ExpenseItems(Rows(data)))
    ensures revenue == Grouped(SourceItems(Rows(data)))
  {
    var months := MonthlyRecord(Rows(data));
    monthly := SortByKey(months);
    expenses := ExpensesRecord(Rows(data));
    revenue := RevenueRecord(Rows(data));
  }

  lemma TotalsAppend(items: seq<Item>, it: Item)
    ensures TotalFirst(items + [it]) == TotalFirst(items) + it.first
    ensures TotalSecond(items + [it]) == TotalSecond(items) + it.second
  {
    assert (items + [it])[..|items|] == items;
  }

  lemma {:induction false} MonthItemsTotals(ts: seq<Transaction>)
    ensures |MonthItems(ts)| == |ts|
    ensures TotalFirst(MonthItems(ts)) == Amount(ts, Receita, Recebido)
    ensures TotalSecond(MonthItems(ts)) == Amount(ts, Despesa, Pago)
    decreases |ts|
  {
    if ts != [] {
      MonthItemsTotals(ts[..|ts| - 1]);
      TotalsAppend(MonthItems(ts[..|ts| - 1]), MonthItem(ts[|ts| - 1]));
    }
  }

  lemma {:induction false} MonthItemsKeys(ts: seq<Transaction>, i: nat)
    requires i < |ts|
    ensures MonthOf(ts[i].date) in ItemKeys(MonthItems(ts))
    decreases |ts|
  {
    var n := |ts| - 1;
    var items := MonthItems(ts);
    assert items == MonthItems(ts[..n]) + [MonthItem(ts[n])];
    assert items[..|items| - 1] == MonthItems(ts[..n]);
    if i < n {
      MonthItemsKeys(ts[..n], i);
    }
  }

  /** The monthly series agrees with the cards: its revenue adds up to the
    * received revenue and its expenses to the paid expenses; every row is
    * counted in one month, every row's month appears, and the months are in
    * ascending order. */
  lemma MonthlyAgreesWithStats(ts: seq<Transaction>)
    ensures SumFirst(Monthly(ts)) == StatsOf(ts).totalReceita
    ensures SumSecond(Monthly(ts)) == StatsOf(ts).totalDespesa
    ensures SumCount(Monthly(ts)) == |ts|
    ensures SortedByKey(Monthly(ts))
    ensures forall i :: 0 <= i < |ts| ==> MonthOf(ts[i].date) in KeysOf(Monthly(ts))
  {
    var gs := Grouped(MonthItems(ts));
    MonthItemsTotals(ts);
    GroupedTotals(MonthItems(ts));
    SortByKeyCorrect(gs);
    GroupedKeys(MonthItems(ts));
    forall i | 0 <= i < |ts| ensures MonthOf(ts[i].date) in KeysOf(Monthly(ts)) {
      MonthItemsKeys(ts, i);
      var k := MonthOf(ts[i].date);
      LookupKey(gs, k);
      LookupIn(gs, k);
      var g := Lookup(gs, k).value;
      assert g in multiset(Monthly(ts));
      KeysOfHas(Monthly(ts), g);
    }
  }

  lemma {:induction false} KeysOfHas(gs: seq<Group>, g: Group)
    requires g in gs
    ensures g.key in KeysOf(gs)
    decreases |gs|
  {
    if gs[0] != g {
      KeysOfHas(gs[1..], g);
    }
  }

  lemma {:induction false} ExpenseItemsTotal(ts: seq<Transaction>)
    ensures TotalFirst(ExpenseItems(ts)) == Amount(ts, Despesa, Pago)
    decreases |ts|
  {
    if ts != [] {
      var t := ts[|ts| - 1];
      ExpenseItemsTotal(ts[..|ts| - 1]);
      var items := ExpenseItems(ts[..|ts| - 1]);
      if t.ttype == Despesa && t.status == Pago {
        var it := Item(CategoryName(t), CategoryColor(t), t.amount, 0.0);
        TotalsAppend(items, it);
        assert ExpenseItems(ts) == items + [it];
      }
    }
  }

  /** The expense slices add up to the paid expenses of the cards, one slice
    * per category name. */
  lemma ExpensesAgreeWithStats(ts: seq<Transaction>)
    ensures SumFirst(Grouped(ExpenseItems(ts))) == StatsOf(ts).totalDespesa
    ensures DistinctKeys(Grouped(ExpenseItems(ts)))
  {
    ExpenseItemsTotal(ts);
    GroupedTotals(ExpenseItems(ts));
    GroupedDistinct(ExpenseItems(ts));
  }

  lemma {:induction false} SourceItemsTotal(ts: seq<Transaction>)
    ensures TotalFirst(SourceItems(ts)) == Amount(ts, Receita, Recebido)
    decreases |ts|
  {
    if ts != [] {
      var t := ts[|ts| - 1];
      SourceItemsTotal(ts[..|ts| - 1]);
      if t.ttype == Receita && t.status == Recebido {
        TotalsAppend(SourceItems(ts[..|ts| - 1]), Item(SourceOf(t), "", t.amount, 0.0));
      }
    }
  }

  lemma {:induction false} SourceItemsKeys(ts: seq<Transaction>)
    ensures forall k :: k in ItemKeys(SourceItems(ts)) ==> ParseSource(k).Some?
    decreases |ts|
  {
    if ts != [] {
      var t := ts[|ts| - 1];
      SourceItemsKeys(ts[..|ts| - 1]);
      if t.ttype == Receita && t.status == Recebido {
        var items := SourceItems(ts[..|ts| - 1]);
        var it := Item(SourceOf(t), "", t.amount, 0.0);
        assert (items + [it])[..|items|] == items;
        assert ParseSource(SourceOf(t)).Some? by {
          if t.source.None? {
            assert SourceOf(t) == SourceKey(Organico);
          }
        }
      }
    }
  }

  /** The revenue bars add up to the received revenue of the cards, and
    * every bar is a known source: a row without one is charted as
    * "organico". */
  lemma RevenueAgreesWithStats(ts: seq<Transaction>)
    ensures SumFirst(Grouped(SourceItems(ts))) == StatsOf(ts).totalReceita
    ensures forall k :: k in KeysOf(Grouped(SourceItems(ts))) ==> ParseSource(k).Some?
  {
    SourceItemsTotal(ts);
    SourceItemsKeys(ts);
    GroupedTotals(SourceItems(ts));
    GroupedKeys(SourceItems(ts));
  }
}

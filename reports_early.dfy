/** The earlier revision of the reports page (scripts/relatorios.js): its
    period selector has no default case, and its table divides by the
    totals with no guard against a zero total. The daily buckets and the
    category dictionaries are the same code as in the later revision. */
module ReportsEarly {
  import opened Wrappers
  import opened Dates
  import opened Records
  import opened Aggregates
  import opened DataStorage
  import opened Reports

  /** `handlePeriodChange`: `custom` returns early; the known periods set
      both inputs; any other value leaves `startDate` undefined, so the
      call to `toISOString` on it throws. */
  function HandlePeriodChangeEarly(period: string, today: Date): (c: PeriodChange)
    requires Valid(today)
    ensures c == KeepDates <==> period == CustomPeriod
    ensures c.SetDates? <==> PeriodBounds(period, today).Some?
    ensures c.SetDates? ==> (c.start, c.end) == PeriodBounds(period, today).value
    ensures c == TypeError <==> period != CustomPeriod && PeriodBounds(period, today).None?
  {
    var b := PeriodBounds(period, today);
    if b.Some? then SetDates(b.value.0, b.value.1)
    else if period == CustomPeriod then KeepDates
    else TypeError
  }

  /** The two revisions agree on every known period and on `custom`, and
      differ only where the earlier one throws. */
  lemma PeriodChangeRevisions(period: string, today: Date)
    requires Valid(today)
    ensures HandlePeriodChangeEarly(period, today) != TypeError ==>
              HandlePeriodChangeEarly(period, today) == HandlePeriodChange(period, today)
    ensures HandlePeriodChangeEarly(period, today) == TypeError ==> HandlePeriodChange(period, today) == KeepDates
  {
  }

  /** `(amount / total * 100).toFixed(1)` in floating point: dividing by a
      zero total gives `NaN` for a zero amount and an infinity otherwise. */
  function UnguardedPercent(amount: int, total: int): (p: Percent)
    ensures total != 0 ==> p == Ratio(amount, total)
    ensures total == 0 ==> (p == NaN <==> amount == 0)
    ensures total == 0 && amount > 0 ==> p == Infinity
    ensures total == 0 && amount < 0 ==> p == MinusInfinity
  {
    if total != 0 then Ratio(amount, total)
    else if amount == 0 then NaN
    else if amount > 0 then Infinity
    else MinusInfinity
  }

  function UnguardedRows(es: seq<Entry>, total: int): (rows: seq<Row>)
    ensures |rows| == |es|
    ensures forall i :: 0 <= i < |es| ==>
              rows[i].category == es[i].category && rows[i].amount == es[i].amount
              && rows[i].percent == UnguardedPercent(es[i].amount, total)
  {
    seq(|es|, i requires 0 <= i < |es| => Row(es[i].category, es[i].amount, UnguardedPercent(es[i].amount, total)))
  }

  /** The table this revision renders. */
  function TableOfEarly(revenues: seq<Record>, expenses: seq<Record>): Table {
    var totalIncome := Total(revenues);
    var totalExpenses := Total(expenses);
    Table(totalIncome, totalExpenses, totalIncome - totalExpenses,
          UnguardedRows(CategoryTotals(revenues), totalIncome),
          UnguardedRows(CategoryTotals(expenses), totalExpenses))
  }

  /** With a positive total both revisions show the same table; with a
      zero total the earlier one shows no number in any percentage cell;
      a negative total is a ratio here and '0' in the later revision. */
  lemma TableRevisions(revenues: seq<Record>, expenses: seq<Record>)
    ensures Total(revenues) > 0 && Total(expenses) > 0 ==>
              TableOfEarly(revenues, expenses) == TableOf(revenues, expenses)
    ensures Total(revenues) == 0 ==>
              forall r :: r in TableOfEarly(revenues, expenses).incomeRows ==> r.percent in {NaN, Infinity, MinusInfinity}
    ensures Total(revenues) < 0 ==>
              forall i :: 0 <= i < |TableOfEarly(revenues, expenses).incomeRows| ==>
                TableOfEarly(revenues, expenses).incomeRows[i].percent.Ratio?
                && TableOf(revenues, expenses).incomeRows[i].percent == ZeroText
    ensures TableOfEarly(revenues, expenses).balance == TableOf(revenues, expenses).balance
  {
    var e1 := TableOfEarly(revenues, expenses);
    var e2 := TableOf(revenues, expenses);
    if Total(revenues) > 0 && Total(expenses) > 0 {
      assert e1.incomeRows == e2.incomeRows;
      assert e1.expenseRows == e2.expenseRows;
    }
    if Total(revenues) == 0 {
      forall r | r in e1.incomeRows ensures r.percent in {NaN, Infinity, MinusInfinity} {
        var i :| 0 <= i < |e1.incomeRows| && e1.incomeRows[i] == r;
      }
    }
  }

  /** `updateTable` of this revision. */
  method UpdateTableEarly(revenues: seq<Record>, expenses: seq<Record>) returns (t: Table)
    ensures t == TableOfEarly(revenues, expenses)
  {
    var totalIncome := Total(revenues);
    var totalExpenses := Total(expenses);
    var incomeByCategory := GroupByCategory(revenues);
    var expensesByCategory := GroupByCategory(expenses);
    t := Table(totalIncome, totalExpenses, totalIncome - totalExpenses,
               UnguardedRows(incomeByCategory, totalIncome), UnguardedRows(expensesByCategory, totalExpenses));
  }

  /** `generateReport` of this revision: the same guard and queries, this
      revision's table. */
  method GenerateReportEarly(st: Storage, start: Option<Date>, end: Option<Date>) returns (r: Option<Report>)
    modifies st
    ensures start.None? || end.None? ==> r.None? && st.docs == old(st.docs)
    ensures start.Some? && end.Some? ==>
              r.Some? && IsReport(r.value.(table := TableOf(r.value.revenues, r.value.expenses)),
                                  old(st.Current()), start.value, end.value)
              && r.value.table == TableOfEarly(r.value.revenues, r.value.expenses)
              && st.docs == old(st.AfterRead())
    ensures st.session == old(st.session) && st.legacy == old(st.legacy)
  {
    if start.None? || end.None? {
      return None;
    }
    var revenues := st.GetRevenuesByPeriod(start.value, end.value);
    var expenses := st.GetExpensesByPeriod(start.value, end.value);
    var days, income, spent := GroupByDate(revenues, expenses, start.value, end.value);
    var table := UpdateTableEarly(revenues, expenses);
    r := Some(Report(revenues, expenses, days, income, spent, table));
  }
}

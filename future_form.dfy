/** The future-expense page (scripts/futuras.js): the list sorted by due
    date, the status and status text of each due date, and the submit of
    the future-expense form, as written and as evidently intended. */
module FutureForm {
  import opened Wrappers
  import opened Dates
  import opened Records
  import opened Text
  import opened DataStorage
  import opened Forms
  import Dashboard

  // ---------------------------------------------------------------
  // The submit
  // ---------------------------------------------------------------

  /** `!expense.description || !expense.amount || !expense.date ||
      !expense.category` fails: nothing is trimmed and a negative amount
      passes. */
  predicate Filled(f: Fields) {
    f.description != "" && Truthy(f.amount) && f.date.Some? && f.category != ""
  }

  /** The future expense the submit builds: the fields as typed, and
      `isFuture: true`. */
  function NewFutureExpense(f: Fields, id: string): Record
    requires f.amount.Some? && f.date.Some?
  {
    Record(id, f.description, f.amount.value, f.date.value, f.category, f.kind,
           None, None, None, Some(true))
  }

  /** `handleFutureExpenseSubmit` as written: with an id it calls
      `updateExpense`, which searches the normal expenses, so a future
      expense is never found; without one it appends a future expense. */
  method HandleFutureExpenseSubmitAsWritten(st: Storage, f: Fields, freshId: string) returns (out: Outcome)
    modifies st
    ensures !Filled(f) ==> out == Rejected(MissingFields) && st.docs == old(st.docs)
    ensures Filled(f) && f.id == "" ==>
              out == Added(NewFutureExpense(f, freshId))
              && st.docs == old(st.AfterWrite(AppendTo(st.Current(), FutureExpenses, out.stored)))
    ensures Filled(f) && f.id != "" ==>
              out == Updated(FullPatch(NewFutureExpense(f, f.id)), FirstIndex(old(st.Current()).expenses, f.id) >= 0)
              && st.docs == if out.found then old(st.AfterWrite(UpdateIn(st.Current(), Expenses, out.patch)))
                            else old(st.AfterRead())
    ensures st.session == old(st.session) && st.legacy == old(st.legacy)
  {
    if !Filled(f) {
      return Rejected(MissingFields);
    }
    if f.id != "" {
      var p := FullPatch(NewFutureExpense(f, f.id));
      var found := st.UpdateExpense(p);
      out := Updated(p, found);
    } else {
      var stored := st.AddFutureExpense(NewFutureExpense(f, freshId), freshId);
      out := Added(stored);
    }
  }

  /** The submit as evidently intended: an edit updates the future expense. */
  method HandleFutureExpenseSubmit(st: Storage, f: Fields, freshId: string) returns (out: Outcome)
    modifies st
    ensures !Filled(f) ==> out == Rejected(MissingFields) && st.docs == old(st.docs)
    ensures Filled(f) && f.id == "" ==>
              out == Added(NewFutureExpense(f, freshId))
              && st.docs == old(st.AfterWrite(AppendTo(st.Current(), FutureExpenses, out.stored)))
    ensures Filled(f) && f.id != "" ==>
              out == Updated(FullPatch(NewFutureExpense(f, f.id)), FirstIndex(old(st.Current()).futureExpenses, f.id) >= 0)
              && st.docs == if out.found then old(st.AfterWrite(UpdateIn(st.Current(), FutureExpenses, out.patch)))
                            else old(st.AfterRead())
    ensures st.session == old(st.session) && st.legacy == old(st.legacy)
  {
    if !Filled(f) {
      return Rejected(MissingFields);
    }
    if f.id != "" {
      var p := FullPatch(NewFutureExpense(f, f.id));
      var found := st.UpdateFutureExpense(p);
      out := Updated(p, found);
    } else {
      var stored := st.AddFutureExpense(NewFutureExpense(f, freshId), freshId);
      out := Added(stored);
    }
  }

  /** As written, editing a stored future expense loses the edit: no
      normal expense carries its id, so `updateExpense` finds nothing; and
      when a normal expense does carry the id, that expense is the one
      overwritten and is marked future while it stays on the normal list. */
  lemma EditLostAsWritten(doc: Doc, f: Fields)
    requires Filled(f) && f.id != ""
    ensures FirstIndex(doc.expenses, f.id) == -1 ==>
              UpdateIn(doc, Expenses, FullPatch(NewFutureExpense(f, f.id))) == doc
    ensures FirstIndex(doc.expenses, f.id) >= 0 ==>
              !Partitioned(UpdateIn(doc, Expenses, FullPatch(NewFutureExpense(f, f.id))))
  {
    var i := FirstIndex(doc.expenses, f.id);
    if i >= 0 {
      var after := UpdateIn(doc, Expenses, FullPatch(NewFutureExpense(f, f.id)));
      assert after.expenses[i] in after.expenses;
    }
  }

  /** One stored future expense, an edit of its amount: as written the
      store call finds nothing; as intended the expense takes the amount. */
  lemma EditLostExample()
    ensures var x := Record("1", "Aluguel", 100, Date(2025, 7, 10), "Casa", Fixed, None, None, None, Some(true));
            var f := Fields("1", "Aluguel", Some(250), Some(Date(2025, 7, 10)), "Casa", Fixed, "", "", "");
            var doc := Doc([], [], [x]);
            Filled(f)
            && FirstIndex(doc.expenses, f.id) == -1
            && FirstIndex(doc.futureExpenses, f.id) == 0
            && UpdateIn(doc, FutureExpenses, FullPatch(NewFutureExpense(f, f.id))).futureExpenses[0].amount == 250
  {
  }

  /** As intended, an edit of a future expense stores every field the form
      holds on that expense, touches neither other list, and keeps normal
      and future expenses apart. */
  lemma EditLaws(doc: Doc, f: Fields)
    requires Filled(f) && f.id != ""
    requires FirstIndex(doc.futureExpenses, f.id) >= 0
    ensures var after := UpdateIn(doc, FutureExpenses, FullPatch(NewFutureExpense(f, f.id)));
            var y := after.futureExpenses[FirstIndex(doc.futureExpenses, f.id)];
            y.id == f.id && y.description == f.description && y.amount == f.amount.value
            && y.date == f.date.value && y.category == f.category && y.kind == f.kind
            && y.isFuture == Some(true)
            && after.revenues == doc.revenues && after.expenses == doc.expenses
    ensures Partitioned(doc) ==> Partitioned(UpdateIn(doc, FutureExpenses, FullPatch(NewFutureExpense(f, f.id))))
  {
    if Partitioned(doc) {
      UpdateKeepsPartition(doc, FutureExpenses, FullPatch(NewFutureExpense(f, f.id)));
    }
  }

  // ---------------------------------------------------------------
  // The due-date status
  // ---------------------------------------------------------------

  const Overdue := "overdue"
  const Upcoming := "upcoming"
  const Later := "future"

  /** `Math.ceil((new Date(expenseDate) - new Date()) / day)`: the whole
      days from today to the due date; `None` (`NaN`) when the due date is
      not a date. */
  function DayDiff(due: Date, today: Date): Option<int>
    requires Valid(today)
  {
    if Valid(due) then Some(Ordinal(due) - Ordinal(today)) else None
  }

  /** `getExpenseStatus`: overdue before today, upcoming from today to a
      week ahead, future after that or when the due date is not a date. */
  function ExpenseStatus(due: Date, today: Date): (s: string)
    requires Valid(today)
    ensures s == Overdue <==> Valid(due) && Precedes(due, today)
    ensures s == Upcoming <==> Valid(due) && NotAfter(today, due) && NotAfter(due, AddDays(today, 7))
    ensures s == Later <==> !Valid(due) || Precedes(AddDays(today, 7), due)
  {
    if Valid(due) then
      PrecedesIffOrdinal(due, today);
      PrecedesIffOrdinal(AddDays(today, 7), due);
      var d := DayDiff(due, today).value;
      if d < 0 then Overdue else if d <= 7 then Upcoming else Later
    else Later
  }

  const OverduePrefix := "Vencida há "
  const LaterPrefix := "Vence em "

  /** A count of days after the words `p`. */
  function Counted(p: string, n: nat): string {
    p + NatToString(n) + " dias"
  }

  /** `getExpenseStatusText` on a day difference. */
  function DaysText(d: Option<int>): string {
    match d
    case None => "Vence em NaN dias"
    case Some(n) =>
      if n < 0 then Counted(OverduePrefix, -n)
      else if n == 0 then "Vence hoje"
      else if n == 1 then "Vence amanhã"
      else Counted(LaterPrefix, n)
  }

  function StatusText(due: Date, today: Date): string
    requires Valid(today)
  {
    DaysText(DayDiff(due, today))
  }

  /** The text and the status agree: "Vencida" exactly for overdue, "Vence
      hoje" exactly on the due day, "Vence amanhã" exactly the day before. */
  lemma StatusAgrees(due: Date, today: Date)
    requires Valid(today)
    ensures ExpenseStatus(due, today) == Overdue <==> |StatusText(due, today)| >= 7 && StatusText(due, today)[..7] == "Vencida"
    ensures StatusText(due, today) == "Vence hoje" <==> due == today
    ensures StatusText(due, today) == "Vence amanhã" <==> due == NextDay(today)
  {
    DaysTextShape(DayDiff(due, today));
    if Valid(due) {
      PrecedesIffOrdinal(due, today);
      PrecedesIffOrdinal(due, NextDay(today));
    }
  }

  /** Which texts start with "Vencida", and which two are fixed words. */
  lemma DaysTextShape(d: Option<int>)
    ensures (|DaysText(d)| >= 7 && DaysText(d)[..7] == "Vencida") <==> d.Some? && d.value < 0
    ensures DaysText(d) == "Vence hoje" <==> d == Some(0)
    ensures DaysText(d) == "Vence amanhã" <==> d == Some(1)
  {
    var t := DaysText(d);
    if d.Some? && d.value < 0 {
      assert t[..7] == "Vencida";
    } else {
      assert t[4] == 'e';
      if d.None? || d.value >= 2 {
        assert t[6] == 'e';
      }
    }
  }

  /** `P + n + S` gives back `n`. */
  lemma Unwrap(p: string, n1: string, n2: string, s: string)
    requires p + n1 + s == p + n2 + s
    ensures n1 == n2
  {
    var t1, t2 := p + n1 + s, p + n2 + s;
    assert n1 == t1[|p|..|p| + |n1|];
    assert n2 == t2[|p|..|p| + |n2|];
  }

  /** No two day differences share a text. */
  lemma DaysTextInjective(a: Option<int>, b: Option<int>)
    ensures DaysText(a) == DaysText(b) <==> a == b
  {
    if a != b {
      if a.None? {
        NaNTextDiffers(b.value);
      } else if b.None? {
        NaNTextDiffers(a.value);
      } else {
        NumberTextsDiffer(a.value, b.value);
      }
    }
  }

  lemma NaNTextDiffers(n: int)
    ensures DaysText(Some(n)) != DaysText(None)
  {
    var tn, t0 := DaysText(Some(n)), DaysText(None);
    if n < 0 {
      assert tn[4] != t0[4];
    } else if n <= 1 {
      assert tn[6] != t0[6];
    } else {
      assert tn[9] == NatToString(n)[0];
      assert tn[9] != t0[9];
    }
  }

  lemma NumberTextsDiffer(m: int, n: int)
    requires m != n
    ensures DaysText(Some(m)) != DaysText(Some(n))
  {
    if m < 0 && n < 0 {
      OverdueTextsDiffer(m, n);
    } else if m >= 2 && n >= 2 {
      LaterTextsDiffer(m, n);
    } else {
      TextShape(m);
      TextShape(n);
    }
  }

  /** The fifth letter of a day text tells overdue from not, and the
      seventh tells today, tomorrow and later apart. */
  lemma TextShape(n: int)
    ensures |DaysText(Some(n))| >= 7
    ensures DaysText(Some(n))[4] == if n < 0 then 'i' else 'e'
    ensures n >= 0 ==> DaysText(Some(n))[6] == if n == 0 then 'h' else if n == 1 then 'a' else 'e'
  {
    var t := DaysText(Some(n));
    if n < 0 {
      var p := OverduePrefix;
      assert t == Counted(p, -n);
      assert t[4] == p[4];
    } else if n >= 2 {
      var p := LaterPrefix;
      assert t == Counted(p, n);
      assert t[4] == p[4] && t[6] == p[6];
    }
  }

  lemma OverdueTextsDiffer(m: int, n: int)
    requires m < 0 && n < 0 && m != n
    ensures DaysText(Some(m)) != DaysText(Some(n))
  {
    CountedTextsDiffer(OverduePrefix, -m, -n);
    OverdueBridge(m, n);
  }

  lemma OverdueBridge(m: int, n: int)
    requires m < 0 && n < 0 && Counted(OverduePrefix, -m) != Counted(OverduePrefix, -n)
    ensures DaysText(Some(m)) != DaysText(Some(n))
  {
    var a, b := DaysText(Some(m)), DaysText(Some(n));
    assert a == Counted(OverduePrefix, -m);
    assert b == Counted(OverduePrefix, -n);
  }

  lemma LaterTextsDiffer(m: int, n: int)
    requires m >= 2 && n >= 2 && m != n
    ensures DaysText(Some(m)) != DaysText(Some(n))
  {
    assert DaysText(Some(m)) == Counted(LaterPrefix, m);
    assert DaysText(Some(n)) == Counted(LaterPrefix, n);
    CountedTextsDiffer(LaterPrefix, m, n);
  }

  /** Two texts with the same words around different counts differ. */
  lemma CountedTextsDiffer(p: string, m: nat, n: nat)
    requires m != n
    ensures Counted(p, m) != Counted(p, n)
  {
    if Counted(p, m) == Counted(p, n) {
      Unwrap(p, NatToString(m), NatToString(n), " dias");
      NatToStringInjective(m, n);
    }
  }

  /** Two valid due dates with the same status text are the same date. */
  lemma StatusTextInjective(d1: Date, d2: Date, today: Date)
    requires Valid(today) && Valid(d1) && Valid(d2)
    requires StatusText(d1, today) == StatusText(d2, today)
    ensures d1 == d2
  {
    DaysTextInjective(DayDiff(d1, today), DayDiff(d2, today));
    PrecedesIffOrdinal(d1, d2);
  }

  // ---------------------------------------------------------------
  // The list, sorted by due date
  // ---------------------------------------------------------------

  /** `expenses.sort((a, b) => new Date(a.date) - new Date(b.date))`: the
      list sorted in place, earliest due date first. */
  method SortByDate(a: array<Record>)
    modifies a
    ensures forall i, j :: 0 <= i < j < a.Length ==> Dashboard.DateKey(a[i]) <= Dashboard.DateKey(a[j])
    ensures multiset(a[..]) == multiset(old(a[..]))
  {
    InsertionSort(a, Dashboard.DateKey);
  }

  /** The first `n` items of `s` are in ascending order of `key`. */
  predicate SortedPrefix(s: seq<Record>, key: Record -> int, n: int) {
    0 <= n <= |s| && forall p, q :: 0 <= p < q < n ==> key(s[p]) <= key(s[q])
  }

  /** Halfway through inserting `s[j]` into the sorted first `i` items:
      apart from the item at `j`, the first `i + 1` items are in order,
      and the item at `j` is no larger than those after it. */
  predicate Inserting(s: seq<Record>, key: Record -> int, i: int, j: int) {
    0 <= j <= i < |s|
    && (forall p, q :: 0 <= p < q <= i && q != j ==> key(s[p]) <= key(s[q]))
    && (0 < j < i ==> key(s[j - 1]) <= key(s[j + 1]))
  }

  lemma StartInsert(s: seq<Record>, key: Record -> int, i: int)
    requires SortedPrefix(s, key, i) && i < |s|
    ensures Inserting(s, key, i, i)
  {
  }

  /** One swap moves the item one place down and keeps the items. */
  lemma SwapStep(s: seq<Record>, key: Record -> int, i: int, j: int)
    requires Inserting(s, key, i, j) && 0 < j && key(s[j - 1]) > key(s[j])
    ensures Inserting(s[j - 1 := s[j]][j := s[j - 1]], key, i, j - 1)
    ensures multiset(s[j - 1 := s[j]][j := s[j - 1]]) == multiset(s)
  {
    var t := s[j - 1 := s[j]][j := s[j - 1]];
    forall p, q | 0 <= p < q <= i && q != j - 1 ensures key(t[p]) <= key(t[q]) {
      if q == j {
        if p < j - 1 {
          assert key(s[p]) <= key(s[j - 1]);
        }
      } else if p == j - 1 {
        assert key(s[j]) < key(s[j - 1]);
        assert key(s[j - 1]) <= key(s[q]) || q == j;
      } else if p == j {
        assert key(s[j - 1]) <= key(s[q]);
      }
    }
    if 0 < j - 1 {
      assert key(s[j - 2]) <= key(s[j - 1]);
    }
  }

  /** Once the item at `j` is no smaller than the one before it, the first
      `i + 1` items are in order. */
  lemma EndInsert(s: seq<Record>, key: Record -> int, i: int, j: int)
    requires Inserting(s, key, i, j) && (j == 0 || key(s[j - 1]) <= key(s[j]))
    ensures SortedPrefix(s, key, i + 1)
  {
    forall p, q | 0 <= p < q <= i ensures key(s[p]) <= key(s[q]) {
      if q == j && p < j - 1 {
        assert key(s[p]) <= key(s[j - 1]);
      } else if p == j && j < q {
        if 0 < j && j < i {
          assert key(s[j]) <= key(s[j + 1]);
        }
        if j + 1 < q {
          assert key(s[j + 1]) <= key(s[q]);
        }
      }
    }
  }

  /** Insertion sort of `a` by `key`, in place. */
  method InsertionSort(a: array<Record>, key: Record -> int)
    modifies a
    ensures forall i, j :: 0 <= i < j < a.Length ==> key(a[i]) <= key(a[j])
    ensures multiset(a[..]) == multiset(old(a[..]))
  {
    var i := 0;
    while i < a.Length
      invariant 0 <= i <= a.Length
      invariant SortedPrefix(a[..], key, i)
      invariant multiset(a[..]) == multiset(old(a[..]))
    {
      StartInsert(a[..], key, i);
      var j := i;
      while j > 0 && key(a[j - 1]) > key(a[j])
        invariant Inserting(a[..], key, i, j)
        invariant multiset(a[..]) == multiset(old(a[..]))
      {
        ghost var s := a[..];
        SwapStep(s, key, i, j);
        a[j - 1], a[j] := a[j], a[j - 1];
        assert a[..] == s[j - 1 := s[j]][j := s[j - 1]];
        j := j - 1;
      }
      EndInsert(a[..], key, i, j);
      i := i + 1;
    }
    assert SortedPrefix(a[..], key, a.Length);
  }
}

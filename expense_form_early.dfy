/** The earlier revision of the expense page (scripts/despesas.js): its
    lists do not leave out future-marked expenses, and its form writes a
    place and no future flag. The checks are those of the later revision
    (its extra `isNaN` test is already covered by the falsy amount test),
    and so is `formatPaymentMethod`. */
module ExpenseFormEarly {
  import opened Wrappers
  import opened Dates
  import opened Records
  import opened Text
  import opened DataStorage
  import opened Forms
  import ExpenseForm

  /** `loadData` and the two render functions: every stored expense, split by type. */
  function ExpenseListsEarly(d: Doc): (r: (seq<Record>, seq<Record>))
    ensures forall x :: x in r.0 <==> x in d.expenses && x.kind == Fixed
    ensures forall x :: x in r.1 <==> x in d.expenses && x.kind == Variable
  {
    KindLists(d.expenses)
  }

  /** The later lists are these lists without the expenses marked future. */
  lemma ListsRevisions(d: Doc)
    ensures forall x :: x in ExpenseForm.ExpenseLists(d).0 <==> x in ExpenseListsEarly(d).0 && IsNormal(x)
    ensures forall x :: x in ExpenseForm.ExpenseLists(d).1 <==> x in ExpenseListsEarly(d).1 && IsNormal(x)
  {
  }

  /** The expense this form builds: trimmed description and category,
      payment method, place and notes, and no future flag. */
  function NewExpenseEarly(f: Fields, id: string, kind: string): Record
    requires f.amount.Some? && f.date.Some?
  {
    Record(id, Trim(f.description), f.amount.value, f.date.value, Trim(f.category), kind,
           Some(f.notes), Some(f.paymentMethod), Some(f.local), None)
  }

  /** `handleExpenseSubmit` of this revision. The store's add marks the
      new expense normal; an edit leaves the stored flag alone. */
  method HandleExpenseSubmitEarly(st: Storage, f: Fields, freshId: string) returns (out: Outcome)
    modifies st
    ensures out.Rejected? <==> Validate(f).Some?
    ensures out.Rejected? ==> out.reason == Validate(f).value && st.docs == old(st.docs)
    ensures Validate(f).None? && f.id == "" ==>
              out == Added(NewExpenseEarly(f, freshId, f.kind).(isFuture := Some(false)))
              && st.docs == old(st.AfterWrite(AppendTo(st.Current(), Expenses, out.stored)))
    ensures Validate(f).None? && f.id != "" ==>
              out.Updated?
              && out.patch == FullPatch(NewExpenseEarly(f, f.id, OriginalKind(old(st.Current()).expenses, f.id)))
              && (out.found <==> FirstIndex(old(st.Current()).expenses, f.id) >= 0)
              && st.docs == if out.found then old(st.AfterWrite(UpdateIn(st.Current(), Expenses, out.patch)))
                            else old(st.AfterRead())
    ensures st.session == old(st.session) && st.legacy == old(st.legacy)
  {
    var description := Trim(f.description);
    var category := Trim(f.category);
    if description == "" || !Truthy(f.amount) || f.date.None? || category == "" {
      return Rejected(MissingFields);
    }
    if f.amount.value <= 0 {
      return Rejected(NotPositive);
    }
    out := StoreExpenseEarly(st, f, freshId);
  }

  /** The store calls of a submit whose checks passed. */
  method StoreExpenseEarly(st: Storage, f: Fields, freshId: string) returns (out: Outcome)
    requires f.amount.Some? && f.date.Some?
    modifies st
    ensures f.id == "" ==>
              out == Added(NewExpenseEarly(f, freshId, f.kind).(isFuture := Some(false)))
              && st.docs == old(st.AfterWrite(AppendTo(st.Current(), Expenses, out.stored)))
    ensures f.id != "" ==>
              out.Updated?
              && out.patch == FullPatch(NewExpenseEarly(f, f.id, OriginalKind(old(st.Current()).expenses, f.id)))
              && (out.found <==> FirstIndex(old(st.Current()).expenses, f.id) >= 0)
              && st.docs == if out.found then old(st.AfterWrite(UpdateIn(st.Current(), Expenses, out.patch)))
                            else old(st.AfterRead())
    ensures st.session == old(st.session) && st.legacy == old(st.legacy)
  {
    if f.id != "" {
      var kind := GetOriginalExpenseType(st, f.id);
      var expense := NewExpenseEarly(f, f.id, kind);
      var found := st.UpdateExpense(FullPatch(expense));
      out := Updated(FullPatch(expense), found);
    } else {
      var stored := st.AddExpense(NewExpenseEarly(f, freshId, f.kind), freshId);
      out := Added(stored);
    }
  }

  /** `getOriginalExpenseType`: reads the document and looks the id up. */
  method GetOriginalExpenseType(st: Storage, id: string) returns (kind: string)
    modifies st
    ensures kind == OriginalKind(old(st.Current()).expenses, id)
    ensures st.docs == old(st.AfterRead()) && st.Current() == old(st.Current())
    ensures st.session == old(st.session) && st.legacy == old(st.legacy)
  {
    var data := st.GetData();
    kind := OriginalKind(data.expenses, id);
  }

  /** An edit keeps every stored type and every stored future flag, so it
      keeps normal and future expenses apart, as the add does. */
  lemma SubmitKeepsPartition(doc: Doc, f: Fields, id: string)
    requires f.amount.Some? && f.date.Some?
    ensures forall j :: 0 <= j < |doc.expenses| ==>
              var u := UpdateFirst(doc.expenses, FullPatch(NewExpenseEarly(f, id, OriginalKind(doc.expenses, id))))[j];
              u.kind == doc.expenses[j].kind && u.isFuture == doc.expenses[j].isFuture
    ensures Partitioned(doc) ==>
              Partitioned(UpdateIn(doc, Expenses, FullPatch(NewExpenseEarly(f, id, OriginalKind(doc.expenses, id)))))
              && Partitioned(AppendTo(doc, Expenses, NewExpenseEarly(f, id, f.kind).(isFuture := Some(false))))
  {
    var p := FullPatch(NewExpenseEarly(f, id, OriginalKind(doc.expenses, id)));
    assert p.id == id && p.kind == Some(OriginalKind(doc.expenses, id)) && p.isFuture.None?;
    PatchKeepsStored(doc.expenses, p);
    if Partitioned(doc) {
      UpdateKeepsPartition(doc, Expenses, p);
      AddsKeepPartition(doc, NewExpenseEarly(f, id, f.kind));
    }
  }
}

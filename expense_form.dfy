/** The expense page (despesas.js): the lists of normal expenses by type,
    the lookup behind the edit button, and the submit of the expense form,
    which checks the fields, keeps the stored type on edit and either
    updates or appends a normal expense. */
module ExpenseForm {
  import opened Wrappers
  import opened Dates
  import opened Records
  import opened Text
  import opened DataStorage
  import opened Forms

  /** `loadData`: only expenses not marked future, then the type filters. */
  function ExpenseLists(d: Doc): (r: (seq<Record>, seq<Record>))
    ensures forall x :: x in r.0 <==> x in d.expenses && IsNormal(x) && x.kind == Fixed
    ensures forall x :: x in r.1 <==> x in d.expenses && IsNormal(x) && x.kind == Variable
  {
    KindLists(NormalOnly(d.expenses))
  }

  /** `editExpense`: the first expense with the id that is not marked future. */
  function EditTarget(s: seq<Record>, id: string): (r: Option<Record>)
    ensures r.Some? ==> r.value in s && r.value.id == id && IsNormal(r.value)
    ensures r.None? <==> forall x :: x in s ==> !(x.id == id && IsNormal(x))
  {
    if s == [] then None
    else if s[0].id == id && IsNormal(s[0]) then Some(s[0])
    else EditTarget(s[1..], id)
  }

  /** A lookup by id in a list that starts with `x`. */
  lemma FindByIdCons(x: Record, s: seq<Record>, id: string)
    ensures FindById([x] + s, id) == if x.id == id then Some(x) else FindById(s, id)
  {
    var t := [x] + s;
    assert t[0] == x && t[1..] == s;
    if x.id != id {
      var k := FirstIndex(s, id);
      assert FirstIndex(t, id) == if k == -1 then -1 else k + 1;
      assert k >= 0 ==> t[k + 1] == s[k];
    }
  }

  /** The edit lookup is the search by id among the normal expenses only. */
  lemma {:induction false} EditTargetIsNormalLookup(s: seq<Record>, id: string)
    ensures EditTarget(s, id) == FindById(NormalOnly(s), id)
    decreases |s|
  {
    if s != [] {
      EditTargetIsNormalLookup(s[1..], id);
      if IsNormal(s[0]) {
        FindByIdCons(s[0], NormalOnly(s[1..]), id);
      } else {
        assert NormalOnly(s) == NormalOnly(s[1..]);
      }
    }
  }

  /** The expense the submit builds from checked fields: trimmed
      description and category, the form's payment method and notes, and
      `isFuture: false`. */
  function NewExpense(f: Fields, id: string, kind: string): Record
    requires f.amount.Some? && f.date.Some?
  {
    Record(id, Trim(f.description), f.amount.value, f.date.value, Trim(f.category), kind,
           Some(f.notes), Some(f.paymentMethod), None, Some(false))
  }

  /** `handleExpenseSubmit`. Nothing is stored when a check fails; a
      non-empty id updates the expense with that id (keeping the type of
      the first stored expense with it, `fixed` when there is none); an
      empty id appends a new expense of the form's type. */
  method HandleExpenseSubmit(st: Storage, f: Fields, freshId: string) returns (out: Outcome)
    modifies st
    ensures out.Rejected? <==> Validate(f).Some?
    ensures out.Rejected? ==> out.reason == Validate(f).value && st.docs == old(st.docs)
    ensures Validate(f).None? && f.id == "" ==>
              out == Added(NewExpense(f, freshId, f.kind))
              && st.docs == old(st.AfterWrite(AppendTo(st.Current(), Expenses, out.stored)))
    ensures Validate(f).None? && f.id != "" ==>
              out.Updated?
              && out.patch == FullPatch(NewExpense(f, f.id, OriginalKind(old(st.Current()).expenses, f.id)))
              && (out.found <==> FirstIndex(old(st.Current()).expenses, f.id) >= 0)
              && st.docs == if out.found then old(st.AfterWrite(UpdateIn(st.Current(), Expenses, out.patch)))
                            else old(st.AfterRead())
    ensures st.session == old(st.session) && st.legacy == old(st.legacy)
  {
    var description := Trim(f.description);
    var category := Trim(f.category);
    if description == "" || !Truthy(f.amount) || f.date.None? || category == "" {
      return Rejected(MissingFields);
    }
    if f.amount.value <= 0 {
      return Rejected(NotPositive);
    }
    out := StoreExpense(st, f, freshId);
  }

  /** The store calls of a submit whose checks passed. */
  method StoreExpense(st: Storage, f: Fields, freshId: string) returns (out: Outcome)
    requires f.amount.Some? && f.date.Some?
    modifies st
    ensures f.id == "" ==>
              out == Added(NewExpense(f, freshId, f.kind))
              && st.docs == old(st.AfterWrite(AppendTo(st.Current(), Expenses, out.stored)))
    ensures f.id != "" ==>
              out.Updated?
              && out.patch == FullPatch(NewExpense(f, f.id, OriginalKind(old(st.Current()).expenses, f.id)))
              && (out.found <==> FirstIndex(old(st.Current()).expenses, f.id) >= 0)
              && st.docs == if out.found then old(st.AfterWrite(UpdateIn(st.Current(), Expenses, out.patch)))
                            else old(st.AfterRead())
    ensures st.session == old(st.session) && st.legacy == old(st.legacy)
  {
    if f.id != "" {
      var original := st.GetData();
      var expense := NewExpense(f, f.id, OriginalKind(original.expenses, f.id));
      var found := st.UpdateExpense(FullPatch(expense));
      out := Updated(FullPatch(expense), found);
    } else {
      var stored := st.AddExpense(NewExpense(f, freshId, f.kind), freshId);
      out := Added(stored);
    }
  }

  /** A saved expense has a positive amount, a description and a category
      that are trimmed and not blank, and is marked normal; adding it or
      merging it keeps normal and future expenses apart. */
  lemma SubmitLaws(doc: Doc, f: Fields, id: string, kind: string)
    requires Validate(f).None?
    ensures NewExpense(f, id, kind).amount > 0 && NewExpense(f, id, kind).isFuture == Some(false)
    ensures NewExpense(f, id, kind).description != "" && Trim(NewExpense(f, id, kind).description) == NewExpense(f, id, kind).description
    ensures NewExpense(f, id, kind).category != "" && Trim(NewExpense(f, id, kind).category) == NewExpense(f, id, kind).category
    ensures Partitioned(doc) ==>
              Partitioned(AppendTo(doc, Expenses, NewExpense(f, id, kind)))
              && Partitioned(UpdateIn(doc, Expenses, FullPatch(NewExpense(f, id, kind))))
  {
    var x := NewExpense(f, id, kind);
    if Partitioned(doc) {
      assert x.isFuture == Some(false) && FullPatch(x).isFuture == Some(false);
      AddsKeepPartition(doc, x);
      UpdateKeepsPartition(doc, Expenses, FullPatch(x));
    }
    TrimIdempotent(f.description);
    TrimIdempotent(f.category);
  }

  /** `abrirModalEdicao`: the form filled in from a stored expense, with
      `dinheiro` for a missing payment method and an empty note. */
  function EditForm(e: Record): Fields {
    Fields(e.id, e.description, Some(e.amount), Some(e.date), e.category, e.kind,
           if e.paymentMethod.Some? && e.paymentMethod.value != "" then e.paymentMethod.value else "dinheiro",
           "", if e.notes.Some? then e.notes.value else "")
  }

  /** Opening an expense this form saved and submitting it unchanged passes
      the checks and leaves the document as it was. */
  lemma EditUnchanged(doc: Doc, e: Record)
    requires FirstIndex(doc.expenses, e.id) >= 0 && doc.expenses[FirstIndex(doc.expenses, e.id)] == e
    requires e.amount > 0 && e.isFuture == Some(false)
    requires e.description != "" && Trim(e.description) == e.description
    requires e.category != "" && Trim(e.category) == e.category
    requires e.notes.Some? && e.paymentMethod.Some? && e.paymentMethod.value != ""
    ensures Validate(EditForm(e)).None?
    ensures UpdateIn(doc, Expenses, FullPatch(NewExpense(EditForm(e), e.id, OriginalKind(doc.expenses, e.id)))) == doc
  {
    EditFormRebuilds(e);
    MergeBack(doc, e);
  }

  /** Merging a stored expense with its own fields changes nothing. */
  lemma MergeBack(doc: Doc, e: Record)
    requires FirstIndex(doc.expenses, e.id) >= 0 && doc.expenses[FirstIndex(doc.expenses, e.id)] == e
    ensures OriginalKind(doc.expenses, e.id) == e.kind
    ensures UpdateIn(doc, Expenses, FullPatch(e.(local := None))) == doc
  {
    var i := FirstIndex(doc.expenses, e.id);
    assert Merge(e, FullPatch(e.(local := None))) == e;
    assert doc.expenses[i := e] == doc.expenses;
  }

  /** The filled-in form passes the checks and rebuilds the expense, all
      but the field this form does not write. */
  lemma EditFormRebuilds(e: Record)
    requires e.amount > 0 && e.isFuture == Some(false)
    requires e.description != "" && Trim(e.description) == e.description
    requires e.category != "" && Trim(e.category) == e.category
    requires e.notes.Some? && e.paymentMethod.Some? && e.paymentMethod.value != ""
    ensures Validate(EditForm(e)).None?
    ensures NewExpense(EditForm(e), e.id, e.kind) == e.(local := None)
  {
    EditFormPasses(e);
  }

  /** The filled-in form of an expense with a positive amount and a
      description and a category that are not blank passes the checks. */
  lemma EditFormPasses(e: Record)
    requires e.amount > 0 && Trim(e.description) != "" && Trim(e.category) != ""
    ensures Validate(EditForm(e)).None?
  {
    var f := EditForm(e);
    assert f.description == e.description && f.category == e.category;
    assert f.amount == Some(e.amount) && f.date.Some?;
  }
}

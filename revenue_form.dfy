/** The revenue page (receitas.js): the fixed and variable lists and the
    submit of the revenue form, which checks the fields, keeps the stored
    type on edit and either updates or appends a revenue. */
module RevenueForm {
  import opened Wrappers
  import opened Dates
  import opened Records
  import opened Text
  import opened DataStorage
  import opened Forms

  /** `loadData` and the two render functions: every revenue, split by type. */
  function RevenueLists(d: Doc): (r: (seq<Record>, seq<Record>))
    ensures forall x :: x in r.0 <==> x in d.revenues && x.kind == Fixed
    ensures forall x :: x in r.1 <==> x in d.revenues && x.kind == Variable
  {
    KindLists(d.revenues)
  }

  /** The revenue the submit builds from checked fields: trimmed
      description and category and the notes; no payment method, place
      or future flag. */
  function NewRevenue(f: Fields, id: string, kind: string): Record
    requires f.amount.Some? && f.date.Some?
  {
    Record(id, Trim(f.description), f.amount.value, f.date.value, Trim(f.category), kind,
           Some(f.notes), None, None, None)
  }

  /** `handleRevenueSubmit`. Nothing is stored when a check fails; a
      non-empty id updates the revenue with that id, with the type
      `getOriginalRevenueType` finds; an empty id appends a new revenue of
      the form's type. */
  method HandleRevenueSubmit(st: Storage, f: Fields, freshId: string) returns (out: Outcome)
    modifies st
    ensures out.Rejected? <==> Validate(f).Some?
    ensures out.Rejected? ==> out.reason == Validate(f).value && st.docs == old(st.docs)
    ensures Validate(f).None? && f.id == "" ==>
              out == Added(NewRevenue(f, freshId, f.kind))
              && st.docs == old(st.AfterWrite(AppendTo(st.Current(), Revenues, out.stored)))
    ensures Validate(f).None? && f.id != "" ==>
              out.Updated?
              && out.patch == FullPatch(NewRevenue(f, f.id, OriginalKind(old(st.Current()).revenues, f.id)))
              && (out.found <==> FirstIndex(old(st.Current()).revenues, f.id) >= 0)
              && st.docs == if out.found then old(st.AfterWrite(UpdateIn(st.Current(), Revenues, out.patch)))
                            else old(st.AfterRead())
    ensures st.session == old(st.session) && st.legacy == old(st.legacy)
  {
    var description := Trim(f.description);
    var category := Trim(f.category);
    if description == "" || !Truthy(f.amount) || f.date.None? || category == "" {
      return Rejected(MissingFields);
    }
    if f.amount.value <= 0 {
      return Rejected(NotPositive);
    }
    out := StoreRevenue(st, f, freshId);
  }

  /** The store calls of a submit whose checks passed. */
  method StoreRevenue(st: Storage, f: Fields, freshId: string) returns (out: Outcome)
    requires f.amount.Some? && f.date.Some?
    modifies st
    ensures f.id == "" ==>
              out == Added(NewRevenue(f, freshId, f.kind))
              && st.docs == old(st.AfterWrite(AppendTo(st.Current(), Revenues, out.stored)))
    ensures f.id != "" ==>
              out.Updated?
              && out.patch == FullPatch(NewRevenue(f, f.id, OriginalKind(old(st.Current()).revenues, f.id)))
              && (out.found <==> FirstIndex(old(st.Current()).revenues, f.id) >= 0)
              && st.docs == if out.found then old(st.AfterWrite(UpdateIn(st.Current(), Revenues, out.patch)))
                            else old(st.AfterRead())
    ensures st.session == old(st.session) && st.legacy == old(st.legacy)
  {
    if f.id != "" {
      var kind := GetOriginalRevenueType(st, f.id);
      var revenue := NewRevenue(f, f.id, kind);
      var found := st.UpdateRevenue(FullPatch(revenue));
      out := Updated(FullPatch(revenue), found);
    } else {
      var stored := st.AddRevenue(NewRevenue(f, freshId, f.kind), freshId);
      out := Added(stored);
    }
  }

  /** `getOriginalRevenueType`: reads the document and looks the id up. */
  method GetOriginalRevenueType(st: Storage, id: string) returns (kind: string)
    modifies st
    ensures kind == OriginalKind(old(st.Current()).revenues, id)
    ensures st.docs == old(st.AfterRead()) && st.Current() == old(st.Current())
    ensures st.session == old(st.session) && st.legacy == old(st.legacy)
  {
    var data := st.GetData();
    kind := OriginalKind(data.revenues, id);
  }

  /** A saved revenue has a positive amount and a trimmed, non-blank
      description and category. */
  lemma SavedRevenue(f: Fields, id: string, kind: string)
    requires Validate(f).None?
    ensures NewRevenue(f, id, kind).amount > 0
    ensures NewRevenue(f, id, kind).description != ""
            && Trim(NewRevenue(f, id, kind).description) == NewRevenue(f, id, kind).description
    ensures NewRevenue(f, id, kind).category != ""
            && Trim(NewRevenue(f, id, kind).category) == NewRevenue(f, id, kind).category
  {
    TrimIdempotent(f.description);
    TrimIdempotent(f.category);
  }

  /** An edit keeps every stored type, and the fields this form does not
      write (payment method, place, future flag) keep their stored values. */
  lemma EditKeepsStored(s: seq<Record>, f: Fields, id: string)
    requires f.amount.Some? && f.date.Some?
    ensures forall j :: 0 <= j < |s| ==>
              var u := UpdateFirst(s, FullPatch(NewRevenue(f, id, OriginalKind(s, id))))[j];
              u.kind == s[j].kind && u.paymentMethod == s[j].paymentMethod
              && u.local == s[j].local && u.isFuture == s[j].isFuture
  {
    var p := FullPatch(NewRevenue(f, id, OriginalKind(s, id)));
    assert p.id == id && p.kind == Some(OriginalKind(s, id));
    assert p.paymentMethod.None? && p.local.None? && p.isFuture.None?;
    PatchKeepsStored(s, p);
  }
}

/** The earlier revision of the revenue form (scripts/receitas.js): no
    checks at all, no trimming, the type always taken from the form, an
    empty category replaced by `Outros`, and no notes. Its lists are those
    of the later revision. */
module RevenueFormEarly {
  import opened Wrappers
  import opened Dates
  import opened Records
  import opened DataStorage
  import opened Forms
  import RevenueForm

  const Others := "Outros"

  /** The empty date input, kept as the text `""`: a date no comparison
      accepts. */
  const NoDate := Date(0, 0, 0)

  /** The revenue this form builds: the fields as typed, `Outros` for an
      empty category, the form's type. */
  function NewRevenueEarly(f: Fields, id: string): (r: Record)
    requires f.amount.Some?
    ensures r.category != ""
    ensures f.date.None? ==> !Valid(r.date)
  {
    Record(id, f.description, f.amount.value, f.date.GetOr(NoDate),
           if f.category == "" then Others else f.category, f.kind,
           None, None, None, None)
  }

  /** `handleRevenueSubmit` of this revision: never stops; a non-empty id
      updates, an empty one appends. */
  method HandleRevenueSubmitEarly(st: Storage, f: Fields, freshId: string) returns (out: Outcome)
    requires f.amount.Some?
    modifies st
    ensures f.id == "" ==>
              out == Added(NewRevenueEarly(f, freshId))
              && st.docs == old(st.AfterWrite(AppendTo(st.Current(), Revenues, out.stored)))
    ensures f.id != "" ==>
              out == Updated(FullPatch(NewRevenueEarly(f, f.id)), FirstIndex(old(st.Current()).revenues, f.id) >= 0)
              && st.docs == if out.found then old(st.AfterWrite(UpdateIn(st.Current(), Revenues, out.patch)))
                            else old(st.AfterRead())
    ensures st.session == old(st.session) && st.legacy == old(st.legacy)
  {
    if f.id != "" {
      var p := FullPatch(NewRevenueEarly(f, f.id));
      var found := st.UpdateRevenue(p);
      out := Updated(p, found);
    } else {
      var stored := st.AddRevenue(NewRevenueEarly(f, freshId), freshId);
      out := Added(stored);
    }
  }

  /** An edit here stores the form's type, where the later revision keeps
      the stored one; the stored notes survive, since this form writes none. */
  lemma EditRevisions(s: seq<Record>, f: Fields)
    requires f.amount.Some? && f.date.Some? && f.id != ""
    requires FirstIndex(s, f.id) >= 0
    ensures var i := FirstIndex(s, f.id);
            var early := UpdateFirst(s, FullPatch(NewRevenueEarly(f, f.id)))[i];
            var later := UpdateFirst(s, FullPatch(RevenueForm.NewRevenue(f, f.id, OriginalKind(s, f.id))))[i];
            early.kind == f.kind && early.notes == s[i].notes
            && later.kind == s[i].kind
  {
    RevenueForm.EditKeepsStored(s, f, f.id);
  }
}

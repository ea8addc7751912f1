/** What the record forms of the revenue, expense and future-expense pages
    share: the inputs they read, the outcome of a submit, the checks on
    the required fields, the type kept on edit and the fixed/variable
    lists the pages render. */
module Forms {
  import opened Wrappers
  import opened Dates
  import opened Records
  import opened Text

  /** The values of a record form's inputs. `id` is the hidden id input
      (empty for a new record); `amount` is `parseFloat` of the amount
      input, `None` when that is `NaN`; `date` is the date input, `None`
      when it is empty. */
  datatype Fields = Fields(
    id: string,
    description: string,
    amount: Option<int>,
    date: Option<Date>,
    category: string,
    kind: string,
    paymentMethod: string,
    local: string,
    notes: string)

  /** The two alerts a submit can stop at. */
  datatype Rejection = MissingFields | NotPositive

  /** What a submit did: stopped before any store call, appended a record,
      or handed a patch to an update (which found its record or not). */
  datatype Outcome = Rejected(reason: Rejection) | Added(stored: Record) | Updated(patch: Patch, found: bool)

  /** `!!amount`: `NaN` and zero are falsy. */
  predicate Truthy(amount: Option<int>) {
    amount.Some? && amount.value != 0
  }

  /** The two checks of a revenue or expense submit: the trimmed
      description and category, the date and the amount must be truthy,
      and then the amount must be positive. */
  function Validate(f: Fields): (r: Option<Rejection>)
    ensures r.None? <==>
              Trim(f.description) != "" && Trim(f.category) != "" && f.date.Some?
              && f.amount.Some? && f.amount.value > 0
    ensures r == Some(NotPositive) <==>
              Trim(f.description) != "" && Trim(f.category) != "" && f.date.Some?
              && f.amount.Some? && f.amount.value < 0
  {
    if Trim(f.description) == "" || !Truthy(f.amount) || f.date.None? || Trim(f.category) == "" then Some(MissingFields)
    else if f.amount.value <= 0 then Some(NotPositive)
    else None
  }

  /** The type an edit keeps: that of the first stored record with the
      id, or `fixed` when there is none. */
  function OriginalKind(s: seq<Record>, id: string): (k: string)
    ensures FirstIndex(s, id) >= 0 ==> k == s[FirstIndex(s, id)].kind
    ensures FirstIndex(s, id) == -1 ==> k == Fixed
  {
    match FindById(s, id)
    case Some(x) => x.kind
    case None => Fixed
  }

  /** An edit whose patch carries the type `OriginalKind` finds leaves
      every record's type, and so both type lists, as they were; a field
      the patch does not carry keeps its stored value on every record. */
  lemma PatchKeepsStored(s: seq<Record>, p: Patch)
    requires p.kind == Some(OriginalKind(s, p.id))
    ensures forall j :: 0 <= j < |s| ==> UpdateFirst(s, p)[j].kind == s[j].kind
    ensures p.isFuture.None? ==> forall j :: 0 <= j < |s| ==> UpdateFirst(s, p)[j].isFuture == s[j].isFuture
    ensures p.paymentMethod.None? ==>
              forall j :: 0 <= j < |s| ==> UpdateFirst(s, p)[j].paymentMethod == s[j].paymentMethod
    ensures p.local.None? ==> forall j :: 0 <= j < |s| ==> UpdateFirst(s, p)[j].local == s[j].local
  {
  }

  /** The type filters of the two lists a page renders. */
  function KindLists(s: seq<Record>): (r: (seq<Record>, seq<Record>))
    ensures forall x :: x in r.0 <==> x in s && x.kind == Fixed
    ensures forall x :: x in r.1 <==> x in s && x.kind == Variable
  {
    (OfKind(s, Fixed), OfKind(s, Variable))
  }

  /** No record is on both lists; a record of any other type is on
      neither; and when every record is fixed or variable the two lists
      together hold all of them, with their amounts. */
  lemma KindSplit(s: seq<Record>)
    ensures forall x :: !(x in KindLists(s).0 && x in KindLists(s).1)
    ensures forall x :: x in s && x.kind != Fixed && x.kind != Variable ==>
              x !in KindLists(s).0 && x !in KindLists(s).1
    ensures (forall x :: x in s ==> x.kind == Fixed || x.kind == Variable) ==>
              |KindLists(s).0| + |KindLists(s).1| == |s|
              && Total(KindLists(s).0) + Total(KindLists(s).1) == Total(s)
  {
    if forall x :: x in s ==> x.kind == Fixed || x.kind == Variable {
      KindsCover(s);
    }
  }

  lemma {:induction false} KindsCover(s: seq<Record>)
    requires forall x :: x in s ==> x.kind == Fixed || x.kind == Variable
    ensures |OfKind(s, Fixed)| + |OfKind(s, Variable)| == |s|
    ensures Total(OfKind(s, Fixed)) + Total(OfKind(s, Variable)) == Total(s)
    decreases |s|
  {
    if s != [] {
      var h, t := s[0], s[1..];
      assert [h] + t == s;
      assert forall x :: x in t ==> x in s;
      KindsCover(t);
      TotalCons(h, t);
      var f, v := OfKind(t, Fixed), OfKind(t, Variable);
      if h.kind == Fixed {
        assert OfKind(s, Fixed) == [h] + f;
        assert OfKind(s, Variable) == [] + v == v;
        TotalCons(h, f);
      } else {
        assert OfKind(s, Variable) == [h] + v;
        assert OfKind(s, Fixed) == [] + f == f;
        TotalCons(h, v);
      }
    }
  }

  const PaymentLabels: map<string, string> := map[
    "dinheiro" := "Dinheiro",
    "cartao_credito" := "Cartão Crédito",
    "cartao_debito" := "Cartão Débito",
    "pix" := "PIX",
    "transferencia" := "Transferência"]

  /** `methods[method] || method`: the label of one of the five payment
      codes, any other text as it is. */
  function FormatPaymentMethod(m: string): (r: string)
    ensures m in PaymentLabels ==> r == PaymentLabels[m]
    ensures m !in PaymentLabels ==> r == m
  {
    if m in PaymentLabels then PaymentLabels[m] else m
  }

  /** A label is never a code, so formatting twice is formatting once. */
  lemma FormatIdempotent(m: string)
    ensures FormatPaymentMethod(FormatPaymentMethod(m)) == FormatPaymentMethod(m)
  {
    assert forall c :: c in PaymentLabels ==> PaymentLabels[c] !in PaymentLabels;
  }
}

/** The financial document and its records, as stored per user: three
    ordered lists of revenue and expense records, the sums and filters the
    pages compute over them, and the `{...existing, ...update}` merge the
    store applies when a record is edited. Amounts are integers (cents). */
module Records {
  import opened Wrappers
  import opened Dates

  const Fixed := "fixed"
  const Variable := "variable"

  /** One revenue or expense as a JSON object. `kind` is the `type` field
      ("fixed" or "variable", but nothing enforces that); the optional
      fields are the ones some forms never write. */
  datatype Record = Record(
    id: string,
    description: string,
    amount: int,
    date: Date,
    category: string,
    kind: string,
    notes: Option<string>,
    paymentMethod: Option<string>,
    local: Option<string>,
    isFuture: Option<bool>)

  /** The object handed to an update: every field but the id may be absent. */
  datatype Patch = Patch(
    id: string,
    description: Option<string>,
    amount: Option<int>,
    date: Option<Date>,
    category: Option<string>,
    kind: Option<string>,
    notes: Option<string>,
    paymentMethod: Option<string>,
    local: Option<string>,
    isFuture: Option<bool>)

  /** The document stored under `financialData_<user id>`. */
  datatype Doc = Doc(revenues: seq<Record>, expenses: seq<Record>, futureExpenses: seq<Record>)

  const EmptyDoc := Doc([], [], [])

  datatype ListName = Revenues | Expenses | FutureExpenses

  function Get(doc: Doc, which: ListName): seq<Record> {
    match which
    case Revenues => doc.revenues
    case Expenses => doc.expenses
    case FutureExpenses => doc.futureExpenses
  }

  /** `doc` with list `which` replaced by `s` and the other two lists kept. */
  function Put(doc: Doc, which: ListName, s: seq<Record>): (r: Doc)
    ensures Get(r, which) == s
    ensures forall other :: other != which ==> Get(r, other) == Get(doc, other)
  {
    match which
    case Revenues => doc.(revenues := s)
    case Expenses => doc.(expenses := s)
    case FutureExpenses => doc.(futureExpenses := s)
  }

  /** `{...base, ...p}`: the fields `p` carries win, the others keep their old values. */
  function Merge(base: Record, p: Patch): Record {
    Record(
      p.id,
      p.description.GetOr(base.description),
      p.amount.GetOr(base.amount),
      p.date.GetOr(base.date),
      p.category.GetOr(base.category),
      p.kind.GetOr(base.kind),
      if p.notes.Some? then p.notes else base.notes,
      if p.paymentMethod.Some? then p.paymentMethod else base.paymentMethod,
      if p.local.Some? then p.local else base.local,
      if p.isFuture.Some? then p.isFuture else base.isFuture)
  }

  /** The patch that carries every field of `r`. */
  function FullPatch(r: Record): Patch {
    Patch(r.id, Some(r.description), Some(r.amount), Some(r.date), Some(r.category),
          Some(r.kind), r.notes, r.paymentMethod, r.local, r.isFuture)
  }

  /** A patch with every field present replaces the record outright; an
      empty patch leaves it as it was; merging the same patch twice is
      merging it once. */
  lemma MergeLaws(base: Record, r: Record, p: Patch)
    requires base.id == r.id
    ensures Merge(base, FullPatch(r)).(notes := r.notes, paymentMethod := r.paymentMethod,
                                       local := r.local, isFuture := r.isFuture) == r
    ensures Merge(base, Patch(base.id, None, None, None, None, None, None, None, None, None)) == base
    ensures Merge(Merge(base, p), p) == Merge(base, p)
  {
  }

  /** Sum of amounts: `list.reduce((sum, x) => sum + x.amount, 0)`. */
  function Total(s: seq<Record>): int {
    if s == [] then 0 else Total(s[..|s| - 1]) + s[|s| - 1].amount
  }

  /** The total of a list with `x` in front. */
  lemma TotalCons(x: Record, s: seq<Record>)
    ensures Total([x] + s) == x.amount + Total(s)
  {
    TotalAppend([x], s);
    assert [x][..0] == [];
  }

  lemma {:induction false} TotalAppend(a: seq<Record>, b: seq<Record>)
    ensures Total(a + b) == Total(a) + Total(b)
    decreases |b|
  {
    if b != [] {
      assert (a + b)[..|a + b| - 1] == a + b[..|b| - 1];
      TotalAppend(a, b[..|b| - 1]);
    } else {
      assert a + b == a;
    }
  }

  /** Index of the first record with this id, or -1: `findIndex(r => r.id === id)`. */
  function FirstIndex(s: seq<Record>, id: string): (i: int)
    ensures -1 <= i < |s|
    ensures i == -1 <==> forall j :: 0 <= j < |s| ==> s[j].id != id
    ensures 0 <= i ==> s[i].id == id && forall j :: 0 <= j < i ==> s[j].id != id
  {
    if s == [] then -1
    else if s[0].id == id then 0
    else
      var k := FirstIndex(s[1..], id);
      if k == -1 then -1 else k + 1
  }

  /** `find(r => r.id === id)`. */
  function FindById(s: seq<Record>, id: string): (r: Option<Record>)
    ensures r.None? <==> forall j :: 0 <= j < |s| ==> s[j].id != id
    ensures r.Some? ==> r.value in s && r.value.id == id
  {
    var i := FirstIndex(s, id);
    if i == -1 then None else Some(s[i])
  }

  /** The list after an update: the first record with the patch's id
      merged with it, all other records as they were. */
  function UpdateFirst(s: seq<Record>, p: Patch): (r: seq<Record>)
    ensures |r| == |s|
    ensures FirstIndex(s, p.id) == -1 ==> r == s
    ensures FirstIndex(s, p.id) >= 0 ==>
              r[FirstIndex(s, p.id)] == Merge(s[FirstIndex(s, p.id)], p)
              && forall j :: 0 <= j < |s| && j != FirstIndex(s, p.id) ==> r[j] == s[j]
  {
    var i := FirstIndex(s, p.id);
    if i == -1 then s else s[i := Merge(s[i], p)]
  }

  /** `filter(r => r.id !== id)`. */
  function WithoutId(s: seq<Record>, id: string): (r: seq<Record>)
    ensures forall x :: x in r <==> x in s && x.id != id
    ensures |r| <= |s|
  {
    if s == [] then []
    else (if s[0].id != id then [s[0]] else []) + WithoutId(s[1..], id)
  }

  /** A record whose date falls in `[start, end]`, both included. */
  predicate InRange(x: Record, start: Date, end: Date) {
    NotAfter(start, x.date) && NotAfter(x.date, end)
  }

  /** `filter(x => new Date(x.date) >= start && new Date(x.date) <= end)`. */
  function InPeriod(s: seq<Record>, start: Date, end: Date): (r: seq<Record>)
    ensures forall x :: x in r <==> x in s && InRange(x, start, end)
    ensures |r| <= |s|
  {
    if s == [] then []
    else (if InRange(s[0], start, end) then [s[0]] else []) + InPeriod(s[1..], start, end)
  }

  /** `!x.isFuture`: true when the flag is false or absent. */
  predicate IsNormal(x: Record) {
    x.isFuture != Some(true)
  }

  /** `filter(x => !x.isFuture)`. */
  function NormalOnly(s: seq<Record>): (r: seq<Record>)
    ensures forall x :: x in r <==> x in s && IsNormal(x)
    ensures |r| <= |s|
  {
    if s == [] then []
    else (if IsNormal(s[0]) then [s[0]] else []) + NormalOnly(s[1..])
  }

  /** `filter(x => x.type === kind)`. */
  function OfKind(s: seq<Record>, kind: string): (r: seq<Record>)
    ensures forall x :: x in r <==> x in s && x.kind == kind
    ensures |r| <= |s|
  {
    if s == [] then []
    else (if s[0].kind == kind then [s[0]] else []) + OfKind(s[1..], kind)
  }

  /** `r` is `s` with some elements left out and the rest in their order. */
  ghost predicate IsSubsequence<T>(r: seq<T>, s: seq<T>)
    decreases |s|
  {
    if r == [] then true
    else if s == [] then false
    else if r[0] == s[0] then IsSubsequence(r[1..], s[1..])
    else IsSubsequence(r, s[1..])
  }

  lemma {:induction false} InPeriodKeepsOrder(s: seq<Record>, start: Date, end: Date)
    ensures IsSubsequence(InPeriod(s, start, end), s)
    decreases |s|
  {
    if s != [] {
      InPeriodKeepsOrder(s[1..], start, end);
      var rest := InPeriod(s[1..], start, end);
      if InRange(s[0], start, end) {
        assert ([s[0]] + rest)[1..] == rest;
      } else {
        assert [] + rest == rest;
        SubsequenceDropHead(rest, s);
      }
    }
  }

  lemma {:induction false} WithoutIdKeepsOrder(s: seq<Record>, id: string)
    ensures IsSubsequence(WithoutId(s, id), s)
    decreases |s|
  {
    if s != [] {
      WithoutIdKeepsOrder(s[1..], id);
      var rest := WithoutId(s[1..], id);
      if s[0].id != id {
        assert ([s[0]] + rest)[1..] == rest;
      } else {
        assert [] + rest == rest;
        SubsequenceDropHead(rest, s);
      }
    }
  }

  /** A subsequence of the tail is a subsequence of the whole. */
  lemma {:induction false} SubsequenceDropHead<T>(r: seq<T>, s: seq<T>)
    requires s != [] && IsSubsequence(r, s[1..])
    ensures IsSubsequence(r, s)
    decreases |s|, 0
  {
    if r != [] && r[0] == s[0] {
      // r[0] also heads the tail's match; the rest of r fits the rest of the tail.
      SubsequenceTail(r, s[1..]);
    }
  }

  /** Dropping the head of a subsequence keeps it a subsequence. */
  lemma {:induction false} SubsequenceTail<T>(r: seq<T>, s: seq<T>)
    requires r != [] && IsSubsequence(r, s)
    ensures IsSubsequence(r[1..], s)
    decreases |s|, 1
  {
    assert s != [];
    if r[0] == s[0] {
      if r[1..] != [] {
        SubsequenceDropHead(r[1..], s);
      }
    } else {
      SubsequenceTail(r, s[1..]);
      if r[1..] != [] {
        SubsequenceDropHead(r[1..], s);
      }
    }
  }

  /** Deleting an id that no record carries changes nothing; deleting one
      that is present removes every copy of it. */
  lemma {:induction false} WithoutIdAbsent(s: seq<Record>, id: string)
    requires forall j :: 0 <= j < |s| ==> s[j].id != id
    ensures WithoutId(s, id) == s
    decreases |s|
  {
    if s != [] {
      WithoutIdAbsent(s[1..], id);
    }
  }

  /** Deleting from a concatenation deletes from both parts. */
  lemma {:induction false} WithoutIdConcat(a: seq<Record>, b: seq<Record>, id: string)
    ensures WithoutId(a + b, id) == WithoutId(a, id) + WithoutId(b, id)
    decreases |a|
  {
    if a == [] {
      assert a + b == b;
    } else {
      var h, t := a[0], a[1..];
      assert a == [h] + t && a + b == [h] + (t + b);
      WithoutIdConcat(t, b, id);
      WithoutIdCons(h, t + b, id);
      WithoutIdCons(h, t, id);
      var c := if h.id != id then [h] else [];
      AppendAssoc(c, WithoutId(t, id), WithoutId(b, id));
    }
  }

  lemma AppendAssoc<T>(a: seq<T>, b: seq<T>, c: seq<T>)
    ensures a + (b + c) == (a + b) + c
  {
  }

  /** The filter of a list that starts with `x`. */
  lemma WithoutIdCons(x: Record, s: seq<Record>, id: string)
    ensures WithoutId([x] + s, id) == (if x.id != id then [x] else []) + WithoutId(s, id)
  {
    assert ([x] + s)[0] == x && ([x] + s)[1..] == s;
  }

  /** Every normal expense carries `isFuture == false` and every future
      expense `isFuture == true`: the split the store's add operations keep. */
  predicate Partitioned(doc: Doc) {
    (forall x :: x in doc.expenses ==> x.isFuture == Some(false))
    && (forall x :: x in doc.futureExpenses ==> x.isFuture == Some(true))
  }
}

/** The record store (`Storage` in data/storage.js): every operation reads
    the current user's whole document, changes it in memory and writes it
    back. The browser's key-value storage is modelled by three fields: the
    `currentUser` entry (`session`), the per-user entries
    `financialData_<id>` (`docs`, keyed by user id) and the pre-multi-user
    entry `financialData` (`legacy`). */
module DataStorage {
  import opened Wrappers
  import opened Dates
  import opened Records

  /** The `currentUser` entry: absent (or empty), present but not valid
      JSON, or a user with this id. */
  datatype Session = NoSession | Unreadable | User(id: string)

  /** The text stored under a key: a document, or text `JSON.parse` rejects. */
  datatype Slot = Json(doc: Doc) | Garbage

  class Storage {
    var session: Session
    var docs: map<string, Slot>
    var legacy: Option<Slot>

    constructor (session: Session, docs: map<string, Slot>, legacy: Option<Slot>)
      ensures this.session == session && this.docs == docs && this.legacy == legacy
    {
      this.session := session;
      this.docs := docs;
      this.legacy := legacy;
    }

    /** The document `getData` returns: the user's stored document, or the
        empty document when there is no user, the session entry does not
        parse, the user has no entry yet, or the entry does not parse. */
    function Current(): Doc
      reads this
    {
      match session
      case User(u) => if u in docs && docs[u].Json? then docs[u].doc else EmptyDoc
      case _ => EmptyDoc
    }

    /** The entries after `getData`: on a user's first access the empty
        document is written under the user's key. */
    function AfterRead(): map<string, Slot>
      reads this
    {
      if session.User? && session.id !in docs then docs[session.id := Json(EmptyDoc)] else docs
    }

    /** The entries after writing `d` back for the current user; without a
        readable session `saveData` declines and nothing is written. */
    function AfterWrite(d: Doc): map<string, Slot>
      reads this
    {
      if session.User? then docs[session.id := Json(d)] else docs
    }

    method GetData() returns (d: Doc)
      modifies this
      ensures d == old(Current())
      ensures docs == old(AfterRead())
      ensures session == old(session) && legacy == old(legacy)
      ensures Current() == d
    {
      match session {
        case NoSession =>
          d := EmptyDoc;
        case Unreadable =>
          d := EmptyDoc;
        case User(u) =>
          if u in docs {
            d := if docs[u].Json? then docs[u].doc else EmptyDoc;
          } else {
            d := EmptyDoc;
            docs := docs[u := Json(d)];
          }
      }
    }

    method SaveData(d: Doc) returns (ok: bool)
      modifies this
      ensures ok <==> old(session).User?
      ensures docs == old(AfterWrite(d))
      ensures session == old(session) && legacy == old(legacy)
      ensures ok ==> Current() == d
    {
      if session.User? {
        docs := docs[session.id := Json(d)];
        ok := true;
      } else {
        ok := false;
      }
    }

    /** Appends `x` to list `which` under a fresh id (`Date.now()`). */
    method AddToList(which: ListName, x: Record, freshId: string) returns (stored: Record)
      modifies this
      ensures stored == x.(id := freshId)
      ensures docs == old(AfterWrite(AppendTo(Current(), which, stored)))
      ensures session == old(session) && legacy == old(legacy)
    {
      var data := GetData();
      stored := x.(id := freshId);
      data := Put(data, which, Get(data, which) + [stored]);
      var _ := SaveData(data);
    }

    /** Merges `p` into the first record of list `which` with its id. */
    method UpdateInList(which: ListName, p: Patch) returns (found: bool)
      modifies this
      ensures found <==> FirstIndex(Get(old(Current()), which), p.id) >= 0
      ensures docs == if found then old(AfterWrite(UpdateIn(Current(), which, p)))
                      else old(AfterRead())
      ensures session == old(session) && legacy == old(legacy)
    {
      var data := GetData();
      var index := FirstIndex(Get(data, which), p.id);
      if index != -1 {
        data := Put(data, which, Get(data, which)[index := Merge(Get(data, which)[index], p)]);
        var _ := SaveData(data);
        found := true;
      } else {
        found := false;
      }
    }

    /** Drops every record of list `which` with this id. */
    method DeleteFromList(which: ListName, id: string)
      modifies this
      ensures docs == old(AfterWrite(DeleteIn(Current(), which, id)))
      ensures session == old(session) && legacy == old(legacy)
    {
      var data := GetData();
      data := Put(data, which, WithoutId(Get(data, which), id));
      var _ := SaveData(data);
    }

    method AddRevenue(revenue: Record, freshId: string) returns (stored: Record)
      modifies this
      ensures stored == revenue.(id := freshId)
      ensures docs == old(AfterWrite(Current().(revenues := Current().revenues + [stored])))
      ensures session == old(session) && legacy == old(legacy)
    {
      stored := AddToList(Revenues, revenue, freshId);
    }

    method UpdateRevenue(p: Patch) returns (found: bool)
      modifies this
      ensures found <==> FirstIndex(old(Current()).revenues, p.id) >= 0
      ensures docs == if found
                      then old(AfterWrite(Current().(revenues := UpdateFirst(Current().revenues, p))))
                      else old(AfterRead())
      ensures session == old(session) && legacy == old(legacy)
    {
      found := UpdateInList(Revenues, p);
    }

    method DeleteRevenue(id: string)
      modifies this
      ensures docs == old(AfterWrite(Current().(revenues := WithoutId(Current().revenues, id))))
      ensures session == old(session) && legacy == old(legacy)
    {
      DeleteFromList(Revenues, id);
    }

    method AddExpense(expense: Record, freshId: string) returns (stored: Record)
      modifies this
      ensures stored == expense.(id := freshId, isFuture := Some(false))
      ensures docs == old(AfterWrite(Current().(expenses := Current().expenses + [stored])))
      ensures session == old(session) && legacy == old(legacy)
    {
      stored := AddToList(Expenses, expense.(isFuture := Some(false)), freshId);
    }

    method UpdateExpense(p: Patch) returns (found: bool)
      modifies this
      ensures found <==> FirstIndex(old(Current()).expenses, p.id) >= 0
      ensures docs == if found
                      then old(AfterWrite(Current().(expenses := UpdateFirst(Current().expenses, p))))
                      else old(AfterRead())
      ensures session == old(session) && legacy == old(legacy)
    {
      found := UpdateInList(Expenses, p);
    }

    method DeleteExpense(id: string)
      modifies this
      ensures docs == old(AfterWrite(Current().(expenses := WithoutId(Current().expenses, id))))
      ensures session == old(session) && legacy == old(legacy)
    {
      DeleteFromList(Expenses, id);
    }

    method AddFutureExpense(expense: Record, freshId: string) returns (stored: Record)
      modifies this
      ensures stored == expense.(id := freshId, isFuture := Some(true))
      ensures docs == old(AfterWrite(Current().(futureExpenses := Current().futureExpenses + [stored])))
      ensures session == old(session) && legacy == old(legacy)
    {
      stored := AddToList(FutureExpenses, expense.(isFuture := Some(true)), freshId);
    }

    method UpdateFutureExpense(p: Patch) returns (found: bool)
      modifies this
      ensures found <==> FirstIndex(old(Current()).futureExpenses, p.id) >= 0
      ensures docs == if found
                      then old(AfterWrite(Current().(futureExpenses := UpdateFirst(Current().futureExpenses, p))))
                      else old(AfterRead())
      ensures session == old(session) && legacy == old(legacy)
    {
      found := UpdateInList(FutureExpenses, p);
    }

    method DeleteFutureExpense(id: string)
      modifies this
      ensures docs == old(AfterWrite(Current().(futureExpenses := WithoutId(Current().futureExpenses, id))))
      ensures session == old(session) && legacy == old(legacy)
    {
      DeleteFromList(FutureExpenses, id);
    }

    method GetRevenuesByPeriod(start: Date, end: Date) returns (r: seq<Record>)
      modifies this
      ensures r == InPeriod(old(Current()).revenues, start, end)
      ensures docs == old(AfterRead())
      ensures session == old(session) && legacy == old(legacy)
      ensures Current() == old(Current())
    {
      var data := GetData();
      r := InPeriod(data.revenues, start, end);
    }

    /** Normal expenses in the period, followed by future expenses in it. */
    method GetExpensesByPeriod(start: Date, end: Date) returns (r: seq<Record>)
      modifies this
      ensures r == InPeriod(old(Current()).expenses, start, end)
                 + InPeriod(old(Current()).futureExpenses, start, end)
      ensures docs == old(AfterRead())
      ensures session == old(session) && legacy == old(legacy)
      ensures Current() == old(Current())
    {
      var data := GetData();
      var normal := InPeriod(data.expenses, start, end);
      var future := InPeriod(data.futureExpenses, start, end);
      r := normal + future;
    }

    method GetNormalExpenses() returns (r: seq<Record>)
      modifies this
      ensures r == NormalOnly(old(Current()).expenses)
      ensures docs == old(AfterRead())
      ensures session == old(session) && legacy == old(legacy)
    {
      var data := GetData();
      r := NormalOnly(data.expenses);
    }

    method GetFutureExpenses() returns (r: seq<Record>)
      modifies this
      ensures r == old(Current()).futureExpenses
      ensures docs == old(AfterRead())
      ensures session == old(session) && legacy == old(legacy)
    {
      var data := GetData();
      r := data.futureExpenses;
    }

    /** Copies the legacy entry, text as it is, into the user's slot when
        that slot is empty; reports success whenever both a legacy entry
        and a readable session exist. */
    method MigrateOldData() returns (ok: bool)
      modifies this
      ensures ok <==> old(legacy).Some? && old(session).User?
      ensures docs == if ok && old(session).id !in old(docs)
                      then old(docs)[old(session).id := old(legacy).value]
                      else old(docs)
      ensures session == old(session) && legacy == old(legacy)
    {
      if legacy.Some? && session != NoSession {
        if session.Unreadable? {
          return false;
        }
        if session.id !in docs {
          docs := docs[session.id := legacy.value];
        }
        ok := true;
      } else {
        ok := false;
      }
    }
  }

  /** `doc` with `x` appended to list `which`. */
  function AppendTo(doc: Doc, which: ListName, x: Record): Doc {
    Put(doc, which, Get(doc, which) + [x])
  }

  /** `doc` after an update of list `which` with `p`. */
  function UpdateIn(doc: Doc, which: ListName, p: Patch): Doc {
    Put(doc, which, UpdateFirst(Get(doc, which), p))
  }

  /** `doc` after deleting `id` from list `which`. */
  function DeleteIn(doc: Doc, which: ListName, id: string): Doc {
    Put(doc, which, WithoutId(Get(doc, which), id))
  }

  /** Adding a record under an id the list does not yet hold and then
      deleting that id gives back the document as it was. */
  lemma AddThenDelete(doc: Doc, which: ListName, x: Record)
    requires forall j :: 0 <= j < |Get(doc, which)| ==> Get(doc, which)[j].id != x.id
    ensures DeleteIn(AppendTo(doc, which, x), which, x.id) == doc
  {
    var s := Get(doc, which);
    WithoutIdConcat(s, [x], x.id);
    WithoutIdAbsent(s, x.id);
    assert WithoutId([x], x.id) == [] by {
      assert [x][1..] == [];
    }
    assert s + [] == s;
  }

  /** A delete empties one list of the id, keeps the order of what remains,
      changes nothing when the id is absent, and leaves the other lists alone. */
  lemma DeleteLaws(doc: Doc, which: ListName, id: string)
    ensures forall x :: x in Get(DeleteIn(doc, which, id), which) ==> x.id != id
    ensures IsSubsequence(Get(DeleteIn(doc, which, id), which), Get(doc, which))
    ensures forall other :: other != which ==> Get(DeleteIn(doc, which, id), other) == Get(doc, other)
    ensures (forall j :: 0 <= j < |Get(doc, which)| ==> Get(doc, which)[j].id != id) ==>
              DeleteIn(doc, which, id) == doc
  {
    WithoutIdKeepsOrder(Get(doc, which), id);
    if forall j :: 0 <= j < |Get(doc, which)| ==> Get(doc, which)[j].id != id {
      WithoutIdAbsent(Get(doc, which), id);
    }
  }

  /** The flags the three add operations set keep every normal expense
      marked normal and every future expense marked future. */
  lemma AddsKeepPartition(doc: Doc, x: Record)
    requires Partitioned(doc)
    ensures Partitioned(AppendTo(doc, Revenues, x))
    ensures Partitioned(AppendTo(doc, Expenses, x.(isFuture := Some(false))))
    ensures Partitioned(AppendTo(doc, FutureExpenses, x.(isFuture := Some(true))))
  {
  }

  /** An update keeps the split unless its patch carries the wrong flag for
      the list it lands in. */
  lemma UpdateKeepsPartition(doc: Doc, which: ListName, p: Patch)
    requires Partitioned(doc)
    requires which == Revenues || p.isFuture.None? || p.isFuture == Some(which == FutureExpenses)
    ensures Partitioned(UpdateIn(doc, which, p))
  {
    var s := Get(doc, which);
    var r := UpdateFirst(s, p);
    var i := FirstIndex(s, p.id);
    forall x | x in r ensures x in s || (i >= 0 && x == Merge(s[i], p)) {
      var j :| 0 <= j < |r| && r[j] == x;
      if j != i {
        assert r[j] == s[j];
      }
    }
  }

  lemma DeleteKeepsPartition(doc: Doc, which: ListName, id: string)
    requires Partitioned(doc)
    ensures Partitioned(DeleteIn(doc, which, id))
  {
  }

  /** Adding a record raises the sum of that list by its amount. */
  lemma AddTotal(doc: Doc, which: ListName, x: Record)
    ensures Total(Get(AppendTo(doc, which, x), which)) == Total(Get(doc, which)) + x.amount
  {
    TotalAppend(Get(doc, which), [x]);
  }
}

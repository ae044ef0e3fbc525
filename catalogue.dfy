/**
 * The exported exercise record (one object of `exercises.json`) and the two
 * operations on lists of such records that the builder and its readers share:
 * sorting by label (`list.sort(key=lambda x: x['label'])`) and indexing by id
 * (`{item['id']: item for item in data}`).
 */
module Catalogue {
  import opened Text

  /**
   * One exported exercise; `title` is its `label` (a keyword here) and
   * `searchTerms` is the set behind the space-joined
   * `search_term` string.
   */
  datatype CatalogueRecord = CatalogueRecord(
    id: string, title: string, searchTerms: set<string>, category: string, internalKey: string)

  // ---------------------------------------------------------------------------
  // Sorting by label

  predicate SortedByLabel(rs: seq<CatalogueRecord>) {
    forall i, j :: 0 <= i < j < |rs| ==> LexLe(rs[i].title, rs[j].title)
  }

  /** A stable insertion: `r` goes after every record whose label is not above its own. */
  function InsertByLabel(sorted: seq<CatalogueRecord>, r: CatalogueRecord): seq<CatalogueRecord> {
    if sorted == [] then [r]
    else if LexLe(sorted[0].title, r.title) then [sorted[0]] + InsertByLabel(sorted[1..], r)
    else [r] + sorted
  }

  /** Python's stable sort by label, as insertion of each record in turn. */
  function SortByLabel(rs: seq<CatalogueRecord>): seq<CatalogueRecord> {
    if rs == [] then [] else InsertByLabel(SortByLabel(rs[..|rs| - 1]), rs[|rs| - 1])
  }

  lemma {:induction false} InsertByLabelPermutes(sorted: seq<CatalogueRecord>, r: CatalogueRecord)
    ensures multiset(InsertByLabel(sorted, r)) == multiset(sorted) + multiset{r}
  {
    if sorted != [] && LexLe(sorted[0].title, r.title) {
      InsertByLabelPermutes(sorted[1..], r);
      assert sorted == [sorted[0]] + sorted[1..];
    }
  }

  lemma {:induction false} InsertByLabelSorted(sorted: seq<CatalogueRecord>, r: CatalogueRecord)
    requires SortedByLabel(sorted)
    ensures SortedByLabel(InsertByLabel(sorted, r))
  {
    if sorted != [] {
      if LexLe(sorted[0].title, r.title) {
        var rest := InsertByLabel(sorted[1..], r);
        InsertByLabelSorted(sorted[1..], r);
        InsertByLabelPermutes(sorted[1..], r);
        forall x | x in rest ensures LexLe(sorted[0].title, x.title) {
          assert x in multiset(rest);
          if x != r {
            assert x in sorted[1..];
          }
        }
      } else {
        LexLeTotal(sorted[0].title, r.title);
        forall j | 0 <= j < |sorted| ensures LexLe(r.title, sorted[j].title) {
          if j > 0 {
            LexLeTransitive(r.title, sorted[0].title, sorted[j].title);
          }
        }
      }
    }
  }

  /** The sort drops and adds nothing, and leaves the labels in ascending order. */
  lemma {:induction false} SortByLabelSorted(rs: seq<CatalogueRecord>)
    ensures SortedByLabel(SortByLabel(rs))
    ensures multiset(SortByLabel(rs)) == multiset(rs)
  {
    if rs != [] {
      var init := rs[..|rs| - 1];
      SortByLabelSorted(init);
      InsertByLabelSorted(SortByLabel(init), rs[|rs| - 1]);
      InsertByLabelPermutes(SortByLabel(init), rs[|rs| - 1]);
      assert rs == init + [rs[|rs| - 1]];
    }
  }

  /** The records carrying label `t`, in their order. */
  function WithTitle(rs: seq<CatalogueRecord>, t: string): seq<CatalogueRecord> {
    if rs == [] then [] else (if rs[0].title == t then [rs[0]] else []) + WithTitle(rs[1..], t)
  }

  lemma {:induction false} WithTitleAppend(a: seq<CatalogueRecord>, b: seq<CatalogueRecord>, t: string)
    ensures WithTitle(a + b, t) == WithTitle(a, t) + WithTitle(b, t)
  {
    if a != [] {
      assert (a + b)[1..] == a[1..] + b;
      WithTitleAppend(a[1..], b, t);
    } else {
      assert a + b == b;
    }
  }

  lemma {:induction false} WithTitleNone(rs: seq<CatalogueRecord>, t: string)
    requires forall i :: 0 <= i < |rs| ==> rs[i].title != t
    ensures WithTitle(rs, t) == []
  {
    if rs != [] {
      WithTitleNone(rs[1..], t);
    }
  }

  /** Inserting `r` puts it after every record already there that shares its label. */
  lemma {:induction false} InsertByLabelStable(sorted: seq<CatalogueRecord>, r: CatalogueRecord, t: string)
    requires SortedByLabel(sorted)
    ensures WithTitle(InsertByLabel(sorted, r), t) == WithTitle(sorted, t) + WithTitle([r], t)
  {
    if sorted == [] {
    } else if LexLe(sorted[0].title, r.title) {
      SortedTail(sorted);
      InsertByLabelStable(sorted[1..], r, t);
      ConsStable(sorted[0], InsertByLabel(sorted[1..], r), sorted[1..], r, t);
      assert [sorted[0]] + sorted[1..] == sorted;
    } else {
      InFrontStable(sorted, r, t);
    }
  }

  /** A record in front of both sides of a stability equation keeps it. */
  lemma ConsStable(x: CatalogueRecord, rest: seq<CatalogueRecord>, tail: seq<CatalogueRecord>, r: CatalogueRecord, t: string)
    requires WithTitle(rest, t) == WithTitle(tail, t) + WithTitle([r], t)
    ensures WithTitle([x] + rest, t) == WithTitle([x] + tail, t) + WithTitle([r], t)
  {
    WithTitleCons(x, rest, t);
    WithTitleCons(x, tail, t);
  }

  lemma WithTitleCons(x: CatalogueRecord, rs: seq<CatalogueRecord>, t: string)
    ensures WithTitle([x] + rs, t) == (if x.title == t then [x] else []) + WithTitle(rs, t)
  {
    assert ([x] + rs)[1..] == rs;
  }

  lemma InFrontStable(sorted: seq<CatalogueRecord>, r: CatalogueRecord, t: string)
    requires SortedByLabel(sorted) && sorted != [] && !LexLe(sorted[0].title, r.title)
    ensures WithTitle(InsertByLabel(sorted, r), t) == WithTitle(sorted, t) + WithTitle([r], t)
  {
    WithTitleAppend([r], sorted, t);
    if r.title == t {
      forall i | 0 <= i < |sorted| ensures sorted[i].title != t {
        AboveStaysAbove(sorted, r, i);
      }
      WithTitleNone(sorted, t);
    } else {
      assert WithTitle([r], t) == [];
    }
  }

  /** When `r`'s label is below the first, it is below every label of the sorted list. */
  lemma AboveStaysAbove(sorted: seq<CatalogueRecord>, r: CatalogueRecord, i: nat)
    requires SortedByLabel(sorted) && i < |sorted| && !LexLe(sorted[0].title, r.title)
    ensures sorted[i].title != r.title
  {
    LexLeReflexive(r.title);
    if i > 0 {
      assert LexLe(sorted[0].title, sorted[i].title);
    }
  }

  /** The sort is stable: the records of any one label keep their input order. */
  lemma {:induction false} SortByLabelStable(rs: seq<CatalogueRecord>, t: string)
    ensures WithTitle(SortByLabel(rs), t) == WithTitle(rs, t)
  {
    if rs != [] {
      var init := rs[..|rs| - 1];
      SortByLabelStable(init, t);
      SortByLabelSorted(init);
      InsertByLabelStable(SortByLabel(init), rs[|rs| - 1], t);
      WithTitleAppend(init, [rs[|rs| - 1]], t);
      assert rs == init + [rs[|rs| - 1]];
    }
  }

  /**
   * Two label-sorted arrangements of the same records coincide when no two
   * records share a label: the sort's result is then the only possible one.
   */
  lemma {:induction false} SortedUnique(a: seq<CatalogueRecord>, b: seq<CatalogueRecord>)
    requires SortedByLabel(a) && SortedByLabel(b) && multiset(a) == multiset(b)
    requires forall i, j :: 0 <= i < j < |a| ==> a[i].title != a[j].title
    ensures a == b
  {
    if a != [] {
      SortedHeads(a, b);
      SameTails(a, b);
      SortedTail(a);
      SortedTail(b);
      SortedUnique(a[1..], b[1..]);
      assert a == [a[0]] + a[1..] && b == [b[0]] + b[1..];
    }
  }

  lemma SameTails(a: seq<CatalogueRecord>, b: seq<CatalogueRecord>)
    requires a != [] && b != [] && a[0] == b[0] && multiset(a) == multiset(b)
    ensures multiset(a[1..]) == multiset(b[1..])
  {
    assert a == [a[0]] + a[1..] && b == [b[0]] + b[1..];
    assert multiset(a[1..]) == multiset(a) - multiset([a[0]]);
    assert multiset(b[1..]) == multiset(b) - multiset([a[0]]);
  }

  lemma SortedTail(a: seq<CatalogueRecord>)
    requires a != [] && SortedByLabel(a)
    ensures SortedByLabel(a[1..])
    ensures (forall i, j :: 0 <= i < j < |a| ==> a[i].title != a[j].title) ==>
      forall i, j :: 0 <= i < j < |a[1..]| ==> a[1..][i].title != a[1..][j].title
  {
    assert forall i :: 0 <= i < |a[1..]| ==> a[1..][i] == a[i + 1];
  }

  /** Of two such arrangements, both start with the same record. */
  lemma SortedHeads(a: seq<CatalogueRecord>, b: seq<CatalogueRecord>)
    requires SortedByLabel(a) && SortedByLabel(b) && multiset(a) == multiset(b) && a != []
    requires forall i, j :: 0 <= i < j < |a| ==> a[i].title != a[j].title
    ensures b != [] && a[0] == b[0]
  {
    assert a[0] in multiset(a);
    assert a[0] in multiset(b) && b[0] in multiset(a);
    var i :| 0 <= i < |b| && b[i] == a[0];
    var j :| 0 <= j < |a| && a[j] == b[0];
    if j != 0 {
      LexLeAntisymmetric(a[0].title, a[j].title);
      assert false;
    }
  }

  /** `lista.sort(key=lambda x: x['label'])` on a list of records. */
  method SortRecords(rs: seq<CatalogueRecord>) returns (sorted: seq<CatalogueRecord>)
    ensures sorted == SortByLabel(rs)
  {
    sorted := [];
    var i := 0;
    while i < |rs|
      invariant 0 <= i <= |rs|
      invariant sorted == SortByLabel(rs[..i])
    {
      assert rs[..i + 1][..i] == rs[..i];
      sorted := InsertRecord(sorted, rs[i]);
      i := i + 1;
    }
    assert rs[..i] == rs;
  }

  method InsertRecord(sorted: seq<CatalogueRecord>, r: CatalogueRecord) returns (out: seq<CatalogueRecord>)
    ensures out == InsertByLabel(sorted, r)
  {
    var k := 0;
    while k < |sorted| && LexLe(sorted[k].title, r.title)
      invariant 0 <= k <= |sorted|
      invariant InsertByLabel(sorted, r) == sorted[..k] + InsertByLabel(sorted[k..], r)
    {
      InsertPast(sorted, r, k);
      k := k + 1;
    }
    InsertHere(sorted, r, k);
    out := sorted[..k] + [r] + sorted[k..];
  }

  /** Walking past a record whose label is not after `r`'s keeps it in front. */
  lemma InsertPast(sorted: seq<CatalogueRecord>, r: CatalogueRecord, k: nat)
    requires k < |sorted| && LexLe(sorted[k].title, r.title)
    ensures sorted[..k] + InsertByLabel(sorted[k..], r) == sorted[..k + 1] + InsertByLabel(sorted[k + 1..], r)
  {
    var tail := InsertByLabel(sorted[k + 1..], r);
    assert InsertByLabel(sorted[k..], r) == [sorted[k]] + tail by {
      assert sorted[k..][0] == sorted[k] && sorted[k..][1..] == sorted[k + 1..];
    }
    assert sorted[..k + 1] == sorted[..k] + [sorted[k]];
    assert sorted[..k] + ([sorted[k]] + tail) == (sorted[..k] + [sorted[k]]) + tail;
  }

  /** At the end, or before a record whose label comes after `r`'s, `r` goes in front. */
  lemma InsertHere(sorted: seq<CatalogueRecord>, r: CatalogueRecord, k: nat)
    requires k <= |sorted| && (k == |sorted| || !LexLe(sorted[k].title, r.title))
    ensures InsertByLabel(sorted[k..], r) == [r] + sorted[k..]
  {
  }

  // ---------------------------------------------------------------------------
  // Indexing by id

  /** A dict from id to record; `order` is the dict's key order. */
  datatype RecordIndex = RecordIndex(order: seq<string>, byId: map<string, CatalogueRecord>)

  /**
   * `{item['id']: item for item in data}`: a later record with the same id
   * replaces the earlier one but keeps the key's first position.
   */
  function IndexById(rs: seq<CatalogueRecord>): RecordIndex {
    if rs == [] then RecordIndex([], map[])
    else
      var ix := IndexById(rs[..|rs| - 1]);
      var r := rs[|rs| - 1];
      RecordIndex(if r.id in ix.byId then ix.order else ix.order + [r.id], ix.byId[r.id := r])
  }

  /** The records of the listed keys, in key order (`dict.values()`). */
  function ValuesOf(order: seq<string>, byId: map<string, CatalogueRecord>): seq<CatalogueRecord> {
    if order == [] then []
    else
      var k := order[|order| - 1];
      var init := ValuesOf(order[..|order| - 1], byId);
      if k in byId then init + [byId[k]] else init
  }

  function Values(ix: RecordIndex): seq<CatalogueRecord> {
    ValuesOf(ix.order, ix.byId)
  }

  /** The index's key order lists each key once, and exactly the keys of the dict. */
  ghost predicate WellFormedIndex(ix: RecordIndex) {
    && (forall i, j :: 0 <= i < j < |ix.order| ==> ix.order[i] != ix.order[j])
    && (forall k :: k in ix.byId <==> k in ix.order)
  }

  lemma {:induction false} IndexByIdWellFormed(rs: seq<CatalogueRecord>)
    ensures WellFormedIndex(IndexById(rs))
  {
    if rs != [] {
      IndexByIdWellFormed(rs[..|rs| - 1]);
    }
  }

  /** An id is indexed exactly when some record has it, and it then maps to the last such record. */
  lemma IndexByIdSpec(rs: seq<CatalogueRecord>, id: string)
    ensures id in IndexById(rs).byId <==> exists i :: 0 <= i < |rs| && rs[i].id == id
    ensures id in IndexById(rs).byId ==> LastWithId(rs, id, IndexById(rs).byId[id])
  {
    IndexByIdKeys(rs, id);
    IndexByIdLast(rs, id);
  }

  lemma {:induction false} IndexByIdKeys(rs: seq<CatalogueRecord>, id: string)
    ensures id in IndexById(rs).byId <==> exists i :: 0 <= i < |rs| && rs[i].id == id
  {
    if rs != [] {
      var init := rs[..|rs| - 1];
      IndexByIdKeys(init, id);
      if exists i :: 0 <= i < |init| && init[i].id == id {
        var i :| 0 <= i < |init| && init[i].id == id;
        assert rs[i] == init[i];
      }
      if rs[|rs| - 1].id != id && exists i :: 0 <= i < |rs| && rs[i].id == id {
        var i :| 0 <= i < |rs| && rs[i].id == id;
        assert init[i] == rs[i];
      }
    }
  }

  lemma {:induction false} IndexByIdLast(rs: seq<CatalogueRecord>, id: string)
    ensures id in IndexById(rs).byId ==> LastWithId(rs, id, IndexById(rs).byId[id])
  {
    if rs != [] {
      var init := rs[..|rs| - 1];
      var last := rs[|rs| - 1];
      IndexByIdLast(init, id);
      var byId := IndexById(rs).byId;
      if last.id == id {
        assert byId[id] == last;
        var n := |rs| - 1;
        assert 0 <= n < |rs| && rs[n] == byId[id] && byId[id].id == id;
      } else if id in IndexById(init).byId {
        assert byId[id] == IndexById(init).byId[id];
        var i :| 0 <= i < |init| && init[i] == IndexById(init).byId[id] && init[i].id == id
          && forall j :: i < j < |init| ==> init[j].id != id;
        assert rs[i] == init[i];
        forall j | i < j < |rs|
          ensures rs[j].id != id
        {
          if j < |init| {
            assert rs[j] == init[j];
          }
        }
        assert 0 <= i < |rs| && rs[i] == byId[id] && byId[id].id == id && forall j :: i < j < |rs| ==> rs[j].id != id;
      }
    }
  }

  /** `r` is the last record of `rs` with this id. */
  ghost predicate LastWithId(rs: seq<CatalogueRecord>, id: string, r: CatalogueRecord) {
    exists i :: 0 <= i < |rs| && rs[i] == r && r.id == id && forall j :: i < j < |rs| ==> rs[j].id != id
  }

  /** When every listed key is in the dict, each contributes its record once, in key order. */
  lemma {:induction false} ValuesSpec(order: seq<string>, byId: map<string, CatalogueRecord>)
    requires forall k :: k in order ==> k in byId
    ensures ValuesOf(order, byId) == seq(|order|, i requires 0 <= i < |order| => byId[order[i]])
  {
    if order != [] {
      ValuesSpec(order[..|order| - 1], byId);
    }
  }
}

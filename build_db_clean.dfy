/**
 * The exercise catalogue builder (src/build_db.py), second half: collapsing
 * raw records that share a lower-cased label (`deduplicate_and_clean`), the
 * projection and sort of `save_json`, and the script's main sequence.
 */
module BuildDbClean {
  import opened Wrappers
  import opened Text
  import opened BuildDb
  import opened Catalogue

  // ---------------------------------------------------------------------------
  // Grouping by label

  /** The raw map's records in key order (`data_dict.items()`). */
  function ItemsOf(order: seq<string>, records: map<string, RawRecord>): seq<RawRecord> {
    if order == [] then []
    else
      var init := ItemsOf(order[..|order| - 1], records);
      var k := order[|order| - 1];
      if k in records then init + [records[k]] else init
  }

  function Items(m: RawMap): seq<RawRecord> {
    ItemsOf(m.order, m.records)
  }

  /** The grouping key: the label lower-cased. */
  function LabelKey(r: RawRecord): string {
    LabelLower(r.title)
  }

  /** The distinct label keys, in order of first appearance (`grouped_by_label`'s key order). */
  function LabelKeys(items: seq<RawRecord>): seq<string> {
    if items == [] then []
    else
      var init := LabelKeys(items[..|items| - 1]);
      var lk := LabelKey(items[|items| - 1]);
      if lk in init then init else init + [lk]
  }

  /** The records with this label key, in order (`grouped_by_label[label_key]`). */
  function Group(items: seq<RawRecord>, lk: string): seq<RawRecord> {
    if items == [] then []
    else
      var init := Group(items[..|items| - 1], lk);
      var r := items[|items| - 1];
      if LabelKey(r) == lk then init + [r] else init
  }

  // ---------------------------------------------------------------------------
  // Choosing the winner

  /** The sort key of a candidate: categorised first, then shorter ids. */
  function Rank(r: RawRecord): (int, int) {
    (if r.category != Uncategorized then 0 else 1, |r.id|)
  }

  /** `a` sorts strictly before `b`. */
  predicate Better(a: RawRecord, b: RawRecord) {
    Rank(a).0 < Rank(b).0 || (Rank(a).0 == Rank(b).0 && Rank(a).1 < Rank(b).1)
  }

  /**
   * The first element after a stable sort by `Rank`: the first candidate that
   * no other candidate beats.
   */
  function Winner(cands: seq<RawRecord>): RawRecord
    requires cands != []
  {
    if |cands| == 1 then cands[0]
    else
      var w := Winner(cands[..|cands| - 1]);
      if Better(cands[|cands| - 1], w) then cands[|cands| - 1] else w
  }

  /** The union of the candidates' vocabularies. */
  function VocabUnion(cands: seq<RawRecord>): set<string> {
    if cands == [] then {} else VocabUnion(cands[..|cands| - 1]) + cands[|cands| - 1].searchVocab
  }

  /** The winner with every loser's vocabulary merged into its own. */
  function Merge(cands: seq<RawRecord>): RawRecord
    requires cands != []
  {
    Winner(cands).(searchVocab := VocabUnion(cands))
  }

  /** `deduplicate_and_clean`: one merged record per label key, in order of first appearance. */
  function Deduplicated(items: seq<RawRecord>): (out: seq<RawRecord>)
    ensures |out| == |LabelKeys(items)|
  {
    var lks := LabelKeys(items);
    seq(|lks|, i requires 0 <= i < |lks| => (GroupOfLabelKey(items, lks[i]); Merge(Group(items, lks[i]))))
  }

  // ---------------------------------------------------------------------------
  // The method

  method Deduplicate(raw: RawMap) returns (clean: seq<RawRecord>)
    ensures clean == Deduplicated(Items(raw))
  {
    var labels, groups := GroupByLabel(raw);
    ghost var items := Items(raw);
    clean := [];
    var g := 0;
    while g < |labels|
      invariant 0 <= g <= |labels|
      invariant |clean| == g
      invariant forall i :: 0 <= i < g ==> clean[i] == Deduplicated(items)[i]
    {
      var candidates := groups[labels[g]];
      GroupOfLabelKey(items, labels[g]);
      var winner := PickWinner(candidates);
      clean := clean + [winner];
      g := g + 1;
    }
  }

  /** `labels` and `groups` are the label keys and groups of `items`. */
  ghost predicate Grouped(items: seq<RawRecord>, labels: seq<string>, groups: map<string, seq<RawRecord>>) {
    && labels == LabelKeys(items)
    && (forall lk :: lk in groups <==> lk in labels)
    && (forall lk :: lk in groups ==> groups[lk] == Group(items, lk))
  }

  /** The first loop of `deduplicate_and_clean`: records grouped by label key. */
  method GroupByLabel(raw: RawMap) returns (labels: seq<string>, groups: map<string, seq<RawRecord>>)
    ensures Grouped(Items(raw), labels, groups)
  {
    labels, groups := [], map[];
    var n := 0;
    while n < |raw.order|
      invariant 0 <= n <= |raw.order|
      invariant Grouped(ItemsOf(raw.order[..n], raw.records), labels, groups)
    {
      assert raw.order[..n + 1][..n] == raw.order[..n];
      var key := raw.order[n];
      if key in raw.records {
        labels, groups := AddToGroup(labels, groups, ItemsOf(raw.order[..n], raw.records), raw.records[key]);
      }
      n := n + 1;
    }
    assert raw.order[..n] == raw.order;
  }

  /** One item filed under its lower-cased label, opening the group when the label is new. */
  method AddToGroup(labels: seq<string>, groups: map<string, seq<RawRecord>>, ghost before: seq<RawRecord>, item: RawRecord)
    returns (labels': seq<string>, groups': map<string, seq<RawRecord>>)
    requires Grouped(before, labels, groups)
    ensures Grouped(before + [item], labels', groups')
  {
    labels', groups' := labels, groups;
    var labelKey := LabelLower(item.title);
    GroupsGrow(before, item);
    if labelKey !in groups' {
      labels' := labels' + [labelKey];
      groups' := groups'[labelKey := []];
    }
    groups' := groups'[labelKey := groups'[labelKey] + [item]];
    assert labels' == LabelKeys(before + [item]);
    assert forall lk :: lk in groups' <==> lk in labels';
    forall lk | lk in groups' ensures groups'[lk] == Group(before + [item], lk) {
      if lk == labelKey {
        assert labelKey in groups ==> groups[labelKey] == Group(before, lk);
        assert labelKey !in groups ==> Group(before, lk) == [] by {
          GroupOfLabelKey(before, lk);
        }
      }
    }
  }

  /**
   * The sort and merge of one label's candidates: a single candidate is kept
   * as it is; otherwise the first candidate of least rank takes every other
   * candidate's terms.
   */
  method PickWinner(candidates: seq<RawRecord>) returns (winner: RawRecord)
    requires candidates != []
    ensures winner == Merge(candidates)
  {
    if |candidates| == 1 {
      assert candidates[..0] == [];
      assert VocabUnion(candidates) == candidates[0].searchVocab;
      return candidates[0];
    }
    var best := 0;
    var i := 1;
    while i < |candidates|
      invariant 1 <= i <= |candidates| && 0 <= best < i
      invariant candidates[best] == Winner(candidates[..i])
    {
      assert candidates[..i + 1][..i] == candidates[..i];
      if Better(candidates[i], candidates[best]) {
        best := i;
      }
      i := i + 1;
    }
    assert candidates[..i] == candidates;
    var vocab := candidates[best].searchVocab;
    var j := 0;
    while j < |candidates|
      invariant 0 <= j <= |candidates|
      invariant vocab == candidates[best].searchVocab + VocabUnion(candidates[..j])
    {
      assert candidates[..j + 1][..j] == candidates[..j];
      if j != best {
        vocab := vocab + candidates[j].searchVocab;
      }
      j := j + 1;
    }
    assert candidates[..j] == candidates;
    VocabUnionHas(candidates, best);
    winner := candidates[best].(searchVocab := vocab);
  }

  // ---------------------------------------------------------------------------
  // What the grouping and the winner are

  lemma {:induction false} GroupsGrow(items: seq<RawRecord>, r: RawRecord)
    ensures forall lk :: Group(items + [r], lk) == if LabelKey(r) == lk then Group(items, lk) + [r] else Group(items, lk)
    ensures LabelKeys(items + [r]) == if LabelKey(r) in LabelKeys(items) then LabelKeys(items) else LabelKeys(items) + [LabelKey(r)]
  {
    assert (items + [r])[..|items|] == items;
  }

  /** A label key is listed exactly when some record has it; its group is then not empty. */
  lemma {:induction false} GroupOfLabelKey(items: seq<RawRecord>, lk: string)
    ensures lk in LabelKeys(items) <==> Group(items, lk) != []
  {
    if items != [] {
      GroupOfLabelKey(items[..|items| - 1], lk);
    }
  }

  /** A record is in its label key's group exactly when it is one of the items with that key. */
  lemma {:induction false} GroupMembers(items: seq<RawRecord>, lk: string, r: RawRecord)
    ensures r in Group(items, lk) <==> r in items && LabelKey(r) == lk
  {
    if items != [] {
      var init := items[..|items| - 1];
      GroupMembers(init, lk, r);
      assert items == init + [items[|items| - 1]];
    }
  }

  /** The label keys are distinct. */
  lemma {:induction false} LabelKeysDistinct(items: seq<RawRecord>)
    ensures forall i, j :: 0 <= i < j < |LabelKeys(items)| ==> LabelKeys(items)[i] != LabelKeys(items)[j]
  {
    if items != [] {
      LabelKeysDistinct(items[..|items| - 1]);
    }
  }

  /**
   * The winner is a candidate that no candidate beats, and every candidate
   * before it is strictly worse: the head of the stable sort.
   */
  lemma {:induction false} WinnerIsFirstBest(cands: seq<RawRecord>)
    requires cands != []
    ensures exists k :: FirstBest(cands, k) && cands[k] == Winner(cands)
  {
    if |cands| == 1 {
      assert FirstBest(cands, 0);
    } else {
      var init := cands[..|cands| - 1];
      var n := |cands| - 1;
      WinnerIsFirstBest(init);
      var k :| FirstBest(init, k) && init[k] == Winner(init);
      FirstBestSnoc(cands, k);
    }
  }

  /** A last candidate either beats the first best of the others, and becomes it, or leaves it in place. */
  lemma FirstBestSnoc(cands: seq<RawRecord>, k: int)
    requires |cands| > 1 && FirstBest(cands[..|cands| - 1], k)
    ensures Better(cands[|cands| - 1], cands[k]) ==> FirstBest(cands, |cands| - 1)
    ensures !Better(cands[|cands| - 1], cands[k]) ==> FirstBest(cands, k)
  {
    var init := cands[..|cands| - 1];
    assert forall j :: 0 <= j < |init| ==> cands[j] == init[j];
  }

  /** `cands[k]` is a candidate no candidate beats, and every candidate before it is strictly worse. */
  ghost predicate FirstBest(cands: seq<RawRecord>, k: int) {
    && 0 <= k < |cands|
    && (forall j :: 0 <= j < |cands| ==> !Better(cands[j], cands[k]))
    && (forall j :: 0 <= j < k ==> Better(cands[k], cands[j]))
  }

  /** The winner is categorised exactly when some candidate is. */
  lemma WinnerCategorised(cands: seq<RawRecord>)
    requires cands != []
    ensures Winner(cands).category != Uncategorized <==> exists c :: c in cands && c.category != Uncategorized
  {
    WinnerIsFirstBest(cands);
  }

  /** No candidate of the winner's standing (categorised or not) has a shorter id. */
  lemma WinnerShortest(cands: seq<RawRecord>, c: RawRecord)
    requires c in cands
    ensures (c.category != Uncategorized) == (Winner(cands).category != Uncategorized) ==> |Winner(cands).id| <= |c.id|
  {
    WinnerIsFirstBest(cands);
  }

  /** A term is in the union exactly when some candidate has it. */
  lemma {:induction false} VocabUnionIff(cands: seq<RawRecord>, t: string)
    ensures t in VocabUnion(cands) <==> exists c :: c in cands && t in c.searchVocab
  {
    if cands != [] {
      var init := cands[..|cands| - 1];
      VocabUnionIff(init, t);
      assert cands == init + [cands[|cands| - 1]];
    }
  }

  lemma VocabUnionHas(cands: seq<RawRecord>, k: int)
    requires 0 <= k < |cands|
    ensures cands[k].searchVocab <= VocabUnion(cands)
  {
    forall t | t in cands[k].searchVocab ensures t in VocabUnion(cands) {
      VocabUnionIff(cands, t);
    }
  }

  /**
   * What `deduplicate_and_clean` returns: one record per distinct lower-cased
   * label, and for each record of the input exactly one output record with its
   * label key; that record is a candidate of the key (categorised when any
   * candidate is, of shortest id among its standing) carrying the union of
   * their vocabularies.
   */
  lemma DeduplicatedSpec(items: seq<RawRecord>, i: int)
    requires 0 <= i < |Deduplicated(items)|
    ensures var out, lk := Deduplicated(items), LabelKeys(items)[i];
      var cands := Group(items, lk);
      && cands != []
      && out[i] == Winner(cands).(searchVocab := VocabUnion(cands))
      && Winner(cands) in items && LabelKey(out[i]) == lk
      && forall j :: 0 <= j < |out| && j != i ==> LabelKey(out[j]) != lk
  {
    var out, lks := Deduplicated(items), LabelKeys(items);
    var lk := lks[i];
    GroupOfLabelKey(items, lk);
    var cands := Group(items, lk);
    WinnerIsFirstBest(cands);
    GroupMembers(items, lk, Winner(cands));
    LabelKeysDistinct(items);
    forall j | 0 <= j < |out| && j != i ensures LabelKey(out[j]) != lk {
      GroupOfLabelKey(items, lks[j]);
      WinnerIsFirstBest(Group(items, lks[j]));
      GroupMembers(items, lks[j], Winner(Group(items, lks[j])));
    }
  }

  /** Every input record's label key has its output record. */
  lemma DeduplicatedCovers(items: seq<RawRecord>, r: RawRecord)
    requires r in items
    ensures exists i :: 0 <= i < |Deduplicated(items)| && LabelKey(Deduplicated(items)[i]) == LabelKey(r)
  {
    GroupMembers(items, LabelKey(r), r);
    GroupOfLabelKey(items, LabelKey(r));
    var i :| 0 <= i < |LabelKeys(items)| && LabelKeys(items)[i] == LabelKey(r);
    DeduplicatedSpec(items, i);
  }

  // ---------------------------------------------------------------------------
  // Export (`save_json`)

  /** The exported fields of a record. */
  function Project(r: RawRecord): CatalogueRecord {
    CatalogueRecord(r.id, r.title, r.searchVocab, r.category, r.internalKey)
  }

  function Exported(clean: seq<RawRecord>): seq<CatalogueRecord> {
    SortByLabel(MapSeq(Project, clean))
  }

  /** `save_json`'s list: every record projected, then sorted by label. */
  method SaveJson(clean: seq<RawRecord>) returns (output: seq<CatalogueRecord>)
    ensures output == Exported(clean)
  {
    var projected: seq<CatalogueRecord> := [];
    var i := 0;
    while i < |clean|
      invariant 0 <= i <= |clean|
      invariant projected == MapSeq(Project, clean[..i])
    {
      projected := projected + [Project(clean[i])];
      i := i + 1;
    }
    assert clean[..i] == clean;
    output := SortRecords(projected);
  }

  /** The export holds each record once, sorted by label. */
  lemma ExportedSorted(clean: seq<RawRecord>)
    ensures SortedByLabel(Exported(clean))
    ensures multiset(Exported(clean)) == multiset(MapSeq(Project, clean))
  {
    SortByLabelSorted(MapSeq(Project, clean));
  }

  // ---------------------------------------------------------------------------
  // The script

  /**
   * The script: no catalogue when no file is found, otherwise the files'
   * lines parsed in sorted order, de-duplicated and exported. `contents` is
   * what reading each file yields.
   */
  function Built(dir: string, listing: Option<seq<string>>, contents: string -> seq<string>): Option<seq<CatalogueRecord>> {
    var files := SortedFiles(dir, listing, UseOnlyBr);
    if files == [] then None
    else Some(Exported(Deduplicated(Items(ParseLines(Flatten(MapSeq(contents, files)))))))
  }

  method BuildCatalogue(dir: string, listing: Option<seq<string>>, contents: string -> seq<string>)
    returns (output: Option<seq<CatalogueRecord>>)
    ensures output == Built(dir, listing, contents)
  {
    var files := GetSortedFiles(dir, listing, UseOnlyBr);
    if files == [] {
      return None;
    }
    var lines: seq<seq<string>> := [];
    var i := 0;
    while i < |files|
      invariant 0 <= i <= |files|
      invariant lines == MapSeq(contents, files[..i])
    {
      lines := lines + [contents(files[i])];
      i := i + 1;
    }
    assert files[..i] == files;
    var raw := ParseFiles(lines);
    var clean := Deduplicate(raw);
    var list := SaveJson(clean);
    output := Some(list);
  }
}

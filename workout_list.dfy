/**
 * get_workout_list.py: the service's exercise dictionary is fetched one page
 * of 100 at a time until a page is empty, short or fails, and each exercise
 * is then projected onto one CSV row.
 */
module WorkoutList {
  import opened Wrappers

  /** How many exercises one request asks for (`limit`). */
  function PageSize(): nat { 100 }

  /** The `category` of an exercise: an object (with perhaps a `typeKey`), or anything else. */
  datatype CategoryValue = CategoryObject(typeKey: Option<string>) | CategoryOther

  /** One exercise as the service lists it; `None` stands for an absent key. */
  datatype Exercise = Exercise(
    name: Option<string>, category: Option<CategoryValue>, categoryKey: Option<string>,
    exerciseKey: Option<string>, id: Option<string>)

  /** The service's answer to one page request: a list of exercises, or an exception. */
  datatype PageResult = Page(items: seq<Exercise>) | Raised

  /** The loop ends on this answer: an exception, an empty page or a short one. */
  predicate Stops(r: PageResult) {
    r.Raised? || |r.items| < PageSize()
  }

  /** How many requests are made when the service answers the k-th request with `responses[k]`. */
  function Requests(responses: seq<PageResult>): nat {
    if responses == [] then 0
    else if Stops(responses[0]) then 1
    else 1 + Requests(responses[1..])
  }

  /** The pages appended to the result, in order: every full page, then a short non-empty one. */
  function Appended(responses: seq<PageResult>): seq<seq<Exercise>> {
    if responses == [] then []
    else match responses[0]
      case Raised => []
      case Page(items) =>
        if items == [] then []
        else if |items| < PageSize() then [items]
        else [items] + Appended(responses[1..])
  }

  /** The pages joined in order (`all_exercises.extend(page)` for each). */
  function Flatten(pages: seq<seq<Exercise>>): seq<Exercise> {
    if pages == [] then [] else pages[0] + Flatten(pages[1..])
  }

  /**
   * The pagination loop of `fetch_full_dictionary`. The service answers the
   * k-th request with `responses[k]`, and some answer ends the loop.
   */
  method FetchFullDictionary(responses: seq<PageResult>) returns (all: seq<Exercise>, offsets: seq<nat>)
    requires exists j :: 0 <= j < |responses| && Stops(responses[j])
    ensures |offsets| == Requests(responses)
    ensures forall i :: 0 <= i < |offsets| ==> offsets[i] == PageSize() * i
    ensures all == Flatten(Appended(responses))
  {
    ghost var stop :| 0 <= stop < |responses| && Stops(responses[stop]);
    all := [];
    offsets := [];
    var start: nat := 0;
    var k := 0;
    while true
      invariant k <= stop
      invariant start == PageSize() * k && offsets == Offsets(k)
      invariant Requests(responses) == k + Requests(responses[k..])
      invariant Flatten(Appended(responses)) == all + Flatten(Appended(responses[k..]))
      decreases stop - k
    {
      offsets := offsets + [start];
      assert offsets == Offsets(k + 1);
      FetchStep(responses, k);
      var response := responses[k];
      if response.Raised? || response.items == [] {
        break;
      }
      all := all + response.items;
      if |response.items| < PageSize() {
        break;
      }
      start := start + PageSize();
      k := k + 1;
    }
    OffsetsSpec(|offsets|);
  }

  /** The `start` of each of the first `n` requests. */
  function Offsets(n: nat): (r: seq<nat>)
    ensures |r| == n
  {
    if n == 0 then [] else Offsets(n - 1) + [PageSize() * (n - 1)]
  }

  /** The i-th request starts at `100 * i`. */
  lemma {:induction false} OffsetsSpec(n: nat)
    ensures forall i :: 0 <= i < n ==> Offsets(n)[i] == PageSize() * i
  {
    if n > 0 {
      OffsetsSpec(n - 1);
    }
  }

  /** What the request at `k` adds to the count and to the result. */
  lemma FetchStep(responses: seq<PageResult>, k: nat)
    requires k < |responses|
    ensures var rest, next := responses[k..], responses[k + 1..];
      if Stops(responses[k]) then
        && Requests(rest) == 1
        && Flatten(Appended(rest)) == if responses[k].Raised? then [] else responses[k].items
      else
        && Requests(rest) == 1 + Requests(next)
        && Flatten(Appended(rest)) == responses[k].items + Flatten(Appended(next))
  {
    var rest := responses[k..];
    assert rest[0] == responses[k] && rest[1..] == responses[k + 1..];
    if responses[k].Page? && 0 < |responses[k].items| < PageSize() {
      assert Flatten([responses[k].items]) == responses[k].items + Flatten([]);
    }
  }

  /**
   * Every appended page is the answer to its own request, in order; none is
   * empty; every one but the last holds a full page; and requests number the
   * appended pages or one more (the empty page or the exception that ended the loop).
   */
  lemma {:induction false} AppendedSpec(responses: seq<PageResult>)
    ensures var pages := Appended(responses);
      && |pages| <= Requests(responses) <= |pages| + 1 && Requests(responses) <= |responses|
      && (forall i :: 0 <= i < |pages| ==> responses[i] == Page(pages[i]) && pages[i] != [])
      && (forall i :: 0 <= i < |pages| - 1 ==> |pages[i]| >= PageSize())
  {
    if responses != [] && !Stops(responses[0]) {
      AppendedSpec(responses[1..]);
      var pages := Appended(responses);
      assert pages == [responses[0].items] + Appended(responses[1..]);
      forall i | 0 < i < |pages|
        ensures responses[i] == Page(pages[i]) && pages[i] != []
      {
        assert pages[i] == Appended(responses[1..])[i - 1] && responses[i] == responses[1..][i - 1];
      }
      forall i | 0 < i < |pages| - 1
        ensures |pages[i]| >= PageSize()
      {
        assert pages[i] == Appended(responses[1..])[i - 1];
      }
    }
  }

  // ---------------------------------------------------------------------------
  // The CSV map

  /** The CSV's header row. */
  function Header(): seq<string> {
    ["NOME_NO_APP (PT)", "CATEGORIA_INTERNA (Key)", "EXERCICIO_INTERNO (Key)", "ID"]
  }

  /**
   * The category cell: the `typeKey` of an object category (an absent
   * category counts as an empty object); otherwise the exercise's
   * `categoryKey`, or "UNK". A `None` cell is written as "".
   */
  function CategoryCell(e: Exercise): string {
    match e.category.GetOr(CategoryObject(None))
    case CategoryObject(typeKey) => typeKey.GetOr("")
    case CategoryOther => e.categoryKey.GetOr("UNK")
  }

  /** One exercise's row: name, category, exercise key, id. */
  function RowOf(e: Exercise): seq<string> {
    [e.name.GetOr("N/A"), CategoryCell(e), e.exerciseKey.GetOr("UNK"), e.id.GetOr("")]
  }

  /** The rows `save_data` writes: the header, then one row per exercise, in order. */
  method CsvRows(exercises: seq<Exercise>) returns (rows: seq<seq<string>>)
    ensures |rows| == |exercises| + 1 && rows[0] == Header()
    ensures forall i :: 0 <= i < |exercises| ==> rows[i + 1] == RowOf(exercises[i])
  {
    rows := [Header()];
    for i := 0 to |exercises|
      invariant |rows| == i + 1 && rows[0] == Header()
      invariant forall j :: 0 <= j < i ==> rows[j + 1] == RowOf(exercises[j])
    {
      rows := rows + [RowOf(exercises[i])];
    }
  }

  /**
   * Absent fields fall back to 'N/A', 'UNK' and ''; an absent category reads
   * as an empty object, so its cell is empty rather than 'UNK'.
   */
  lemma RowOfSpec(e: Exercise)
    ensures |RowOf(e)| == 4
    ensures RowOf(e)[0] == "N/A" <== e.name.None?
    ensures RowOf(e)[2] == "UNK" <== e.exerciseKey.None?
    ensures RowOf(e)[3] == "" <== e.id.None?
    ensures e.category.None? ==> RowOf(e)[1] == ""
    ensures e.category == Some(CategoryOther) && e.categoryKey.None? ==> RowOf(e)[1] == "UNK"
    ensures forall k :: e.category == Some(CategoryObject(Some(k))) ==> RowOf(e)[1] == k
  {
  }
}

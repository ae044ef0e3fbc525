/**
 * src/extract_data.py: the translation files are downloaded from four fixed
 * URLs, each saved under a name made from the URL's file name (without
 * `.properties`) and its `bust` query parameter.
 */
module ExtractData {
  import opened Wrappers
  import opened Text

  /** The directory all four translation files are served from. */
  function TranslationDir(): string {
    "https://connect.garmin.com" + "/web-translations" + "/exercise_types"
  }

  /** The URL of one translation file of one version. */
  function TranslationUrl(stem: string, version: string): string {
    TranslationDir() + "/" + stem + ".properties" + "?" + "bust=" + version
  }

  /** The four translation files (`URLS`). */
  function Urls(): seq<string> {
    [ TranslationUrl("exercise_types_pt", "5.21.0.16"),
      TranslationUrl("exercise_types_pt_BR", "5.21.0.16"),
      TranslationUrl("exercise_types_pt_BR", "5.21.0.15a"),
      TranslationUrl("exercise_types_pt", "5.21.0.15a") ]
  }

  /** A URL cut at its first '?' into what comes before it and the query ("" without '?'). */
  function SplitUrl(url: string): (string, string) {
    match SplitFirst(url, '?')
    case None => (url, "")
    case Some((path, query)) => (path, query)
  }

  /** The `k=v` pair of one query segment; a segment without '=' or with an empty value gives none. */
  function PairOf(segment: string): seq<(string, string)> {
    match SplitFirst(segment, '=')
    case None => []
    case Some((k, v)) => if v == "" then [] else [(k, v)]
  }

  /** The pairs of an `&`-separated query, in order (`parse_qs` before grouping by key). */
  function Pairs(query: string): seq<(string, string)>
    decreases |query|
  {
    match IndexOfFrom(query, '&', 0)
    case None => PairOf(query)
    case Some(k) => PairOf(query[..k]) + Pairs(query[k + 1..])
  }

  /** The value of the first pair with this key. */
  function FirstValue(pairs: seq<(string, string)>, key: string): Option<string> {
    if pairs == [] then None
    else if pairs[0].0 == key then Some(pairs[0].1)
    else FirstValue(pairs[1..], key)
  }

  /** `query_params.get('bust', ['unknown'])[0]`. */
  function Version(query: string): string {
    FirstValue(Pairs(query), "bust").GetOr("unknown")
  }

  /** The file's name before the query, with every `.properties` removed. */
  function Stem(url: string): string {
    RemoveAll(AfterLast(SplitUrl(url).0, '/'), ".properties")
  }

  /** `get_filename_from_url`. */
  function FileName(url: string): string {
    Stem(url) + "_" + Version(SplitUrl(url).1) + ".txt"
  }

  // ---------------------------------------------------------------------------
  // What the file name promises

  /** The name is the stem, '_', the version and ".txt"; so it always ends in ".txt". */
  lemma FileNameShape(url: string)
    ensures var name := FileName(url);
      && EndsWith(name, ".txt")
      && StartsWith(name, Stem(url) + "_")
      && name[|Stem(url)| + 1..|name| - 4] == Version(SplitUrl(url).1)
  {
    var name := FileName(url);
    var head := Stem(url) + "_";
    assert name == head + Version(SplitUrl(url).1) + ".txt";
    MatchesAtSlice(name, ".txt", |name| - 4);
    StartsWithIff(name, head);
  }

  /** Cutting at the first '?' gives back the path and the query unchanged. */
  lemma SplitUrlOf(path: string, query: string)
    requires '?' !in path
    ensures SplitUrl(path + "?" + query) == (path, query)
  {
    var url := path + "?" + query;
    SplitFirstAt(url, '?', |path|);
    assert url[..|path|] == path && url[|path| + 1..] == query;
  }

  /**
   * The query never contributes to the stem: two URLs with the same path
   * and any queries have the same stem, which holds no '/'.
   */
  lemma StemIgnoresQuery(path: string, q1: string, q2: string)
    requires '?' !in path
    ensures Stem(path + "?" + q1) == Stem(path + "?" + q2)
    ensures '/' !in AfterLast(SplitUrl(path + "?" + q1).0, '/')
  {
    SplitUrlOf(path, q1);
    SplitUrlOf(path, q2);
  }

  /** `FirstValue` finds the earliest pair with the key, and `None` exactly when no pair has it. */
  lemma {:induction false} FirstValueSpec(pairs: seq<(string, string)>, key: string)
    ensures FirstValue(pairs, key).None? <==> forall i :: 0 <= i < |pairs| ==> pairs[i].0 != key
    ensures FirstValue(pairs, key).Some? ==>
      exists i :: 0 <= i < |pairs| && pairs[i] == (key, FirstValue(pairs, key).value)
        && forall j :: 0 <= j < i ==> pairs[j].0 != key
  {
    if pairs != [] && pairs[0].0 != key {
      FirstValueSpec(pairs[1..], key);
      if FirstValue(pairs, key).Some? {
        var i :| 0 <= i < |pairs[1..]| && pairs[1..][i] == (key, FirstValue(pairs, key).value)
          && forall j :: 0 <= j < i ==> pairs[1..][j].0 != key;
        assert pairs[i + 1] == pairs[1..][i];
        forall j | 0 <= j < i + 1
          ensures pairs[j].0 != key
        {
          if j > 0 {
            assert pairs[j] == pairs[1..][j - 1];
          }
        }
      } else {
        forall i | 0 <= i < |pairs|
          ensures pairs[i].0 != key
        {
          if i > 0 {
            assert pairs[i] == pairs[1..][i - 1];
          }
        }
      }
    }
  }

  /**
   * Without a (non-empty) `bust` parameter the version is "unknown";
   * with several, the first one is used.
   */
  lemma VersionSpec(query: string)
    ensures (forall i :: 0 <= i < |Pairs(query)| ==> Pairs(query)[i].0 != "bust") ==> Version(query) == "unknown"
    ensures forall i :: 0 <= i < |Pairs(query)| ==>
      (Pairs(query)[i].0 == "bust" && forall j :: 0 <= j < i ==> Pairs(query)[j].0 != "bust") ==>
        Version(query) == Pairs(query)[i].1
  {
    FirstValueSpec(Pairs(query), "bust");
  }

  /** A query that is a single non-empty `bust` value has that value as its version. */
  lemma VersionOf(v: string)
    requires v != "" && '&' !in v
    ensures Version("bust=" + v) == v
  {
    var q := "bust=" + v;
    assert forall i :: 0 <= i < |q| ==> q[i] != '&';
    SplitFirstAt(q, '=', 4);
    assert q[..4] == "bust" && q[5..] == v;
  }

  /** Of two `bust` values, the first one wins. */
  lemma FirstBustWins()
    ensures Version("bust=a&bust=b") == "a"
  {
    var q := "bust=a&bust=b";
    assert IndexOfFrom(q, '&', 0) == Some(6);
    assert q[..6] == "bust=a" && q[7..] == "bust=b";
    SplitFirstAt("bust=a", '=', 4);
  }

  /** `s.replace(k, "")` removes a trailing `k` when the text before it cannot start a match. */
  lemma {:induction false} RemoveTrailing(a: string, k: string, i: nat)
    requires |k| > 0 && k[0] !in a && i <= |a|
    ensures RemoveFrom(a + k, k, i) == a[i..]
    decreases |a| - i
  {
    var s := a + k;
    if i < |a| {
      assert !MatchesAt(s, k, i) by {
        assert s[i] == a[i] != k[0];
        MatchesAtSlice(s, k, i);
      }
      RemoveTrailing(a, k, i + 1);
      assert a[i..] == [a[i]] + a[i + 1..];
    } else {
      assert s[i..i + |k|] == k;
      MatchesAtSlice(s, k, i);
    }
  }

  /** The last segment of `dir/base` is `base` when `base` holds no '/'. */
  lemma {:induction false} AfterLastOf(dir: string, base: string)
    requires '/' !in base
    ensures AfterLast(dir + "/" + base, '/') == base
  {
    if base != [] {
      var init := base[..|base| - 1];
      AfterLastOf(dir, init);
      assert dir + "/" + base == (dir + "/" + init) + [base[|base| - 1]];
    } else {
      assert dir + "/" + base == dir + ['/'];
    }
  }

  /** The name of a `dir/stem.properties?bust=v` URL is `stem_v.txt`. */
  lemma FileNameOf(dir: string, stem: string, v: string)
    requires '?' !in dir && '/' !in stem && '?' !in stem && '.' !in stem
    requires v != "" && '&' !in v
    ensures FileName(dir + "/" + stem + ".properties" + "?" + "bust=" + v) == stem + "_" + v + ".txt"
  {
    var path := dir + "/" + (stem + ".properties");
    assert dir + "/" + stem + ".properties" + "?" + "bust=" + v == path + "?" + ("bust=" + v);
    assert '?' !in path;
    SplitUrlOf(path, "bust=" + v);
    AfterLastOf(dir, stem + ".properties");
    RemoveTrailing(stem, ".properties", 0);
    VersionOf(v);
  }

  /** The directory holds no '?', so the query starts after the file name. */
  lemma TranslationDirPlain()
    ensures '?' !in TranslationDir()
  {
    assert '?' !in "https://connect.garmin.com";
    assert '?' !in "/web-translations";
    assert '?' !in "/exercise_types";
  }

  /** A translation URL is saved as its stem, '_', its version and ".txt". */
  lemma TranslationFileName(stem: string, v: string)
    requires '/' !in stem && '?' !in stem && '.' !in stem
    requires v != "" && '&' !in v
    ensures FileName(TranslationUrl(stem, v)) == stem + "_" + v + ".txt"
  {
    TranslationDirPlain();
    FileNameOf(TranslationDir(), stem, v);
  }

  /** The pt_BR URL of version 5.21.0.16 is saved as `exercise_types_pt_BR_5.21.0.16.txt`. */
  lemma PtBrFileName()
    ensures FileName(Urls()[1]) == "exercise_types_pt_BR" + "_" + "5.21.0.16" + ".txt"
  {
    var url := TranslationUrl("exercise_types_pt_BR", "5.21.0.16");
    assert Urls()[1] == url;
    TranslationFileName("exercise_types_pt_BR", "5.21.0.16");
  }

  lemma PtFileName()
    ensures FileName(Urls()[0]) == "exercise_types_pt" + "_" + "5.21.0.16" + ".txt"
  {
    var url := TranslationUrl("exercise_types_pt", "5.21.0.16");
    assert Urls()[0] == url;
    TranslationFileName("exercise_types_pt", "5.21.0.16");
  }

  lemma PtBrOlderFileName()
    ensures FileName(Urls()[2]) == "exercise_types_pt_BR" + "_" + "5.21.0.15a" + ".txt"
  {
    var url := TranslationUrl("exercise_types_pt_BR", "5.21.0.15a");
    assert Urls()[2] == url;
    TranslationFileName("exercise_types_pt_BR", "5.21.0.15a");
  }

  lemma PtOlderFileName()
    ensures FileName(Urls()[3]) == "exercise_types_pt" + "_" + "5.21.0.15a" + ".txt"
  {
    var url := TranslationUrl("exercise_types_pt", "5.21.0.15a");
    assert Urls()[3] == url;
    TranslationFileName("exercise_types_pt", "5.21.0.15a");
  }

  /** The four names have four different lengths. */
  lemma FileNameLengths()
    ensures |Urls()| == 4
    ensures |FileName(Urls()[0])| == 31 && |FileName(Urls()[1])| == 34
    ensures |FileName(Urls()[2])| == 35 && |FileName(Urls()[3])| == 32
  {
    PtFileName();
    PtBrFileName();
    PtBrOlderFileName();
    PtOlderFileName();
  }

  /** No two of the URLs are saved under the same name, so no download overwrites another. */
  lemma FileNamesDistinct()
    ensures |Urls()| == 4
    ensures FileName(Urls()[0]) != FileName(Urls()[1]) && FileName(Urls()[0]) != FileName(Urls()[2])
    ensures FileName(Urls()[0]) != FileName(Urls()[3]) && FileName(Urls()[1]) != FileName(Urls()[2])
    ensures FileName(Urls()[1]) != FileName(Urls()[3]) && FileName(Urls()[2]) != FileName(Urls()[3])
  {
    FileNameLengths();
  }
}

/**
 * The string primitives the scripts take from Python's `str`: whitespace as
 * `str.isspace` sees it, `strip`, `split()` / `" ".join`, `startswith`, `in`,
 * `replace(p, "")`, `split(c, 1)`, ASCII case mapping, decimal formatting, and the
 * accent-stripping transliteration that `unidecode` and `NFKD` + `encode('ASCII', 'ignore')`
 * perform on Portuguese text.
 */
module Text {
  import opened Wrappers

  // ---------------------------------------------------------------------------
  // Characters

  /** Python's `str.isspace()`: what `str.split()`, `str.strip()` and `\s` treat as whitespace. */
  predicate IsSpace(c: char) {
    || c == ' '
    || ('\t' <= c <= '\r')
    || ('\U{1c}' <= c <= '\U{1f}')
    || c == '\U{85}' || c == '\U{a0}' || c == '\U{1680}'
    || ('\U{2000}' <= c <= '\U{200a}')
    || c == '\U{2028}' || c == '\U{2029}' || c == '\U{202f}' || c == '\U{205f}' || c == '\U{3000}'
  }

  predicate IsAscii(c: char) { c as int < 128 }
  predicate IsLowerLetter(c: char) { 'a' <= c <= 'z' }
  predicate IsUpperLetter(c: char) { 'A' <= c <= 'Z' }
  predicate IsDigit(c: char) { '0' <= c <= '9' }

  predicate AllAscii(s: string) { forall i :: 0 <= i < |s| ==> IsAscii(s[i]) }

  /** ASCII `lower()`; every other character is left alone. */
  function LowerChar(c: char): char {
    if IsUpperLetter(c) then (c as int + 32) as char else c
  }

  /** ASCII `upper()`; every other character is left alone. */
  function UpperChar(c: char): char {
    if IsLowerLetter(c) then (c as int - 32) as char else c
  }

  function Lower(s: string): (r: string)
    ensures |r| == |s|
    ensures forall i :: 0 <= i < |s| ==> r[i] == LowerChar(s[i])
  {
    seq(|s|, i requires 0 <= i < |s| => LowerChar(s[i]))
  }

  function Upper(s: string): (r: string)
    ensures |r| == |s|
    ensures forall i :: 0 <= i < |s| ==> r[i] == UpperChar(s[i])
  {
    seq(|s|, i requires 0 <= i < |s| => UpperChar(s[i]))
  }

  /**
   * `str.lower()` on a display label: the ASCII letters and the Latin-1 capitals
   * (U+00C0..U+00DE except the multiplication sign) map to their small letters.
   */
  function LabelLowerChar(c: char): char {
    if IsUpperLetter(c) || ('\U{c0}' <= c <= '\U{de}' && c != '\U{d7}') then (c as int + 32) as char else c
  }

  function LabelLower(s: string): (r: string)
    ensures |r| == |s|
    ensures forall i :: 0 <= i < |s| ==> r[i] == LabelLowerChar(s[i])
  {
    seq(|s|, i requires 0 <= i < |s| => LabelLowerChar(s[i]))
  }

  lemma LowerIdempotent(s: string)
    ensures Lower(Lower(s)) == Lower(s)
  {
  }

  /** Upper-casing then lower-casing an ASCII string is lower-casing it. */
  lemma LowerOfUpper(s: string)
    ensures Lower(Upper(s)) == Lower(s)
  {
  }

  /**
   * Lower-casing leaves no ASCII capital and keeps ASCII text ASCII; it
   * changes a string exactly when the string holds an ASCII capital, so doing
   * it twice is doing it once.
   */
  lemma LowerSpec(s: string)
    ensures forall i :: 0 <= i < |s| ==> !IsUpperLetter(Lower(s)[i])
    ensures AllAscii(s) <==> AllAscii(Lower(s))
    ensures Lower(s) == s <==> forall i :: 0 <= i < |s| ==> !IsUpperLetter(s[i])
    ensures Lower(Lower(s)) == Lower(s)
  {
    if forall i :: 0 <= i < |s| ==> !IsUpperLetter(s[i]) {
      assert forall i :: 0 <= i < |s| ==> Lower(s)[i] == s[i];
    }
  }

  /**
   * On ASCII text, lower-casing a label is ASCII lower-casing; it leaves no
   * ASCII or Latin-1 capital behind, and doing it twice is doing it once.
   */
  lemma LabelLowerSpec(s: string)
    ensures AllAscii(s) ==> LabelLower(s) == Lower(s)
    ensures forall i :: 0 <= i < |s| ==>
      !IsUpperLetter(LabelLower(s)[i]) && !('\U{c0}' <= LabelLower(s)[i] <= '\U{de}' && LabelLower(s)[i] != '\U{d7}')
    ensures LabelLower(LabelLower(s)) == LabelLower(s)
  {
    if AllAscii(s) {
      assert forall i :: 0 <= i < |s| ==> LabelLower(s)[i] == Lower(s)[i];
    }
  }

  // ---------------------------------------------------------------------------
  // Transliteration

  /** The two transliterations the scripts use. */
  datatype Scheme =
    | Nfkd       // `unicodedata.normalize('NFKD', s).encode('ASCII', 'ignore')`
    | Unidecode  // `unidecode.unidecode(s)`

  /**
   * The base letter of a Latin-1 letter with a diacritic (what both schemes
   * give it), or "" for any other character above U+007F.
   */
  function BaseLetter(c: char): (r: string)
    ensures |r| <= 1 && AllAscii(r)
    ensures '_' !in r
  {
    if '\U{c0}' <= c <= '\U{c5}' then "A"
    else if c == '\U{c7}' then "C"
    else if '\U{c8}' <= c <= '\U{cb}' then "E"
    else if '\U{cc}' <= c <= '\U{cf}' then "I"
    else if c == '\U{d1}' then "N"
    else if '\U{d2}' <= c <= '\U{d6}' then "O"
    else if '\U{d9}' <= c <= '\U{dc}' then "U"
    else if c == '\U{dd}' then "Y"
    else if '\U{e0}' <= c <= '\U{e5}' then "a"
    else if c == '\U{e7}' then "c"
    else if '\U{e8}' <= c <= '\U{eb}' then "e"
    else if '\U{ec}' <= c <= '\U{ef}' then "i"
    else if c == '\U{f1}' then "n"
    else if '\U{f2}' <= c <= '\U{f6}' then "o"
    else if '\U{f9}' <= c <= '\U{fc}' then "u"
    else if c == '\U{fd}' || c == '\U{ff}' then "y"
    else ""
  }

  /**
   * NFKD on a Latin-1 character, keeping only the ASCII part: the no-break
   * space, and the spacing diacritics that decompose to a space plus a
   * combining mark, give a space; the ordinal indicators and superscript
   * digits give their letter or digit; the vulgar fractions give their two
   * digits (the fraction slash is dropped); letters with a diacritic give
   * their base letter. Everything else has no ASCII part.
   */
  function NfkdChar(c: char): (r: string)
    ensures |r| <= 2 && AllAscii(r)
    ensures '_' !in r
  {
    if c == '\U{a0}' || c == '\U{a8}' || c == '\U{af}' || c == '\U{b4}' || c == '\U{b8}' then " "
    else if c == '\U{aa}' then "a"
    else if c == '\U{ba}' then "o"
    else if c == '\U{b9}' then "1"
    else if c == '\U{b2}' then "2"
    else if c == '\U{b3}' then "3"
    else if c == '\U{bc}' then "14"
    else if c == '\U{bd}' then "12"
    else if c == '\U{be}' then "34"
    else BaseLetter(c)
  }

  /** unidecode's table for U+00A0..U+00FF; the C1 controls below it give "". */
  function UnidecodeChar(c: char): (r: string)
    ensures |r| <= 4 && AllAscii(r)
    ensures '_' !in r
  {
    if c == '\U{a0}' then " "
    else if c == '\U{a1}' || c == '\U{ac}' then "!"
    else if c == '\U{a2}' then "C/"
    else if c == '\U{a3}' then "PS"
    else if c == '\U{a4}' then "$?"
    else if c == '\U{a5}' then "Y="
    else if c == '\U{a6}' then "|"
    else if c == '\U{a7}' then "SS"
    else if c == '\U{a8}' then "\""
    else if c == '\U{a9}' then "(c)"
    else if c == '\U{aa}' then "a"
    else if c == '\U{ab}' then "<<"
    else if c == '\U{ae}' then "(r)"
    else if c == '\U{af}' then "-"
    else if c == '\U{b0}' then "deg"
    else if c == '\U{b1}' then "+-"
    else if c == '\U{b2}' then "2"
    else if c == '\U{b3}' then "3"
    else if c == '\U{b4}' then "'"
    else if c == '\U{b5}' then "u"
    else if c == '\U{b6}' then "P"
    else if c == '\U{b7}' then "*"
    else if c == '\U{b8}' then ","
    else if c == '\U{b9}' then "1"
    else if c == '\U{ba}' then "o"
    else if c == '\U{bb}' then ">>"
    else if c == '\U{bc}' then " 1/4"
    else if c == '\U{bd}' then " 1/2"
    else if c == '\U{be}' then " 3/4"
    else if c == '\U{bf}' then "?"
    else if c == '\U{c6}' then "AE"
    else if c == '\U{d0}' then "D"
    else if c == '\U{d7}' then "x"
    else if c == '\U{d8}' then "O"
    else if c == '\U{de}' then "Th"
    else if c == '\U{df}' then "ss"
    else if c == '\U{e6}' then "ae"
    else if c == '\U{f0}' then "d"
    else if c == '\U{f7}' then "/"
    else if c == '\U{f8}' then "o"
    else if c == '\U{fe}' then "th"
    else BaseLetter(c)
  }

  /**
   * The transliteration of one character: ASCII is kept, a Latin-1 character
   * goes through the scheme's table, and every character above U+00FF is dropped.
   */
  function FoldChar(m: Scheme, c: char): (r: string)
    ensures IsAscii(c) ==> r == [c]
    ensures AllAscii(r) && |r| <= 4 && (m.Nfkd? ==> |r| <= 2)
    ensures '_' in r ==> c == '_'
  {
    if IsAscii(c) then [c]
    else if c as int > 0xff then ""
    else match m
      case Nfkd => NfkdChar(c)
      case Unidecode => UnidecodeChar(c)
  }

  /** Transliteration yields ASCII, at most two characters (NFKD) or four (unidecode) for each one read. */
  function Fold(m: Scheme, s: string): (r: string)
    ensures AllAscii(r)
    ensures |r| <= 4 * |s| && (m.Nfkd? ==> |r| <= 2 * |s|)
  {
    if s == [] then [] else FoldChar(m, s[0]) + Fold(m, s[1..])
  }

  /** Transliteration leaves pure-ASCII text unchanged. */
  lemma {:induction false} FoldAscii(m: Scheme, s: string)
    requires AllAscii(s)
    ensures Fold(m, s) == s
  {
    if s != [] {
      FoldAscii(m, s[1..]);
    }
  }

  /** NFKD turns a no-break space between two ASCII texts into a plain space. */
  lemma FoldNoBreak(a: string, b: string)
    requires AllAscii(a) && AllAscii(b)
    ensures Fold(Nfkd, a + ['\U{a0}'] + b) == a + " " + b
  {
    FoldAppend(Nfkd, a + ['\U{a0}'], b);
    FoldAppend(Nfkd, a, ['\U{a0}']);
    FoldAscii(Nfkd, a);
    FoldAscii(Nfkd, b);
    FoldNoBreakChar();
  }

  lemma FoldNoBreakChar()
    ensures Fold(Nfkd, ['\U{a0}']) == " "
  {
    assert FoldChar(Nfkd, '\U{a0}') == " ";
  }

  lemma FoldAppend(m: Scheme, a: string, b: string)
    ensures Fold(m, a + b) == Fold(m, a) + Fold(m, b)
  {
    if a == [] {
      assert a + b == b;
    } else {
      assert (a + b)[1..] == a[1..] + b;
      FoldAppend(m, a[1..], b);
    }
  }

  // ---------------------------------------------------------------------------
  // Prefixes and substrings

  /** `p` occurs in `s` at offset `i`, comparing from `p[j]` on. */
  predicate MatchesFrom(s: string, p: string, i: nat, j: nat)
    requires i + |p| <= |s| && j <= |p|
    decreases |p| - j
  {
    j == |p| || (s[i + j] == p[j] && MatchesFrom(s, p, i, j + 1))
  }

  predicate MatchesAt(s: string, p: string, i: nat) {
    i + |p| <= |s| && MatchesFrom(s, p, i, 0)
  }

  lemma {:induction false} MatchesFromSlice(s: string, p: string, i: nat, j: nat)
    requires i + |p| <= |s| && j <= |p|
    ensures MatchesFrom(s, p, i, j) <==> s[i + j..i + |p|] == p[j..]
    decreases |p| - j
  {
    if j < |p| {
      MatchesFromSlice(s, p, i, j + 1);
      assert s[i + j..i + |p|] == [s[i + j]] + s[i + j + 1..i + |p|];
      assert p[j..] == [p[j]] + p[j + 1..];
    }
  }

  /** `MatchesAt` is the slice comparison it stands for. */
  lemma MatchesAtSlice(s: string, p: string, i: nat)
    ensures MatchesAt(s, p, i) <==> i + |p| <= |s| && s[i..i + |p|] == p
  {
    if i + |p| <= |s| {
      MatchesFromSlice(s, p, i, 0);
    }
  }

  /** Python's `s.startswith(p)`. */
  predicate StartsWith(s: string, p: string) { MatchesAt(s, p, 0) }

  lemma StartsWithIff(s: string, p: string)
    ensures StartsWith(s, p) <==> |p| <= |s| && s[..|p|] == p
  {
    MatchesAtSlice(s, p, 0);
  }

  /** Python's `s.endswith(p)`. */
  predicate EndsWith(s: string, p: string) {
    |p| <= |s| && MatchesAt(s, p, |s| - |p|)
  }

  /** `p` occurs in `s` at some offset `i' >= i`. */
  predicate ContainsFrom(s: string, p: string, i: nat)
    decreases |s| - i
  {
    i + |p| <= |s| && (MatchesAt(s, p, i) || ContainsFrom(s, p, i + 1))
  }

  /** Python's `p in s` for strings. */
  predicate Contains(s: string, p: string) { ContainsFrom(s, p, 0) }

  lemma {:induction false} ContainsFromIff(s: string, p: string, i: nat)
    ensures ContainsFrom(s, p, i) <==> exists k: nat :: i <= k && MatchesAt(s, p, k)
    decreases |s| - i
  {
    if i + |p| <= |s| {
      ContainsFromIff(s, p, i + 1);
      if exists k: nat :: i <= k && MatchesAt(s, p, k) {
        var k: nat :| i <= k && MatchesAt(s, p, k);
        if k > i {
          assert i + 1 <= k;
        }
      }
    }
  }

  /** `Contains` is substring occurrence (see `MatchesAtSlice` for the slice reading). */
  lemma ContainsIff(s: string, p: string)
    ensures Contains(s, p) <==> exists k: nat :: MatchesAt(s, p, k)
  {
    ContainsFromIff(s, p, 0);
  }

  /** Containment is transitive: a string holding `q` holds everything `q` holds. */
  lemma ContainsTransitive(s: string, q: string, p: string)
    requires Contains(s, q) && Contains(q, p)
    ensures Contains(s, p)
  {
    ContainsIff(s, q);
    ContainsIff(q, p);
    var k: nat :| MatchesAt(s, q, k);
    var m: nat :| MatchesAt(q, p, m);
    MatchesAtSlice(s, q, k);
    MatchesAtSlice(q, p, m);
    assert q == s[k..k + |q|];
    var inS, inQ := s[k + m..k + m + |p|], q[m..m + |p|];
    forall j | 0 <= j < |p| ensures inS[j] == inQ[j] {
      assert q[m + j] == s[k + m + j];
    }
    assert inS == inQ;
    MatchesAtSlice(s, p, k + m);
    ContainsIff(s, p);
  }

  /** What a string holds, the same string behind a prefix holds too. */
  lemma ContainsBehind(a: string, s: string, p: string)
    requires Contains(s, p)
    ensures Contains(a + s, p)
  {
    MatchesAtSlice(a + s, s, |a|);
    assert (a + s)[|a|..|a| + |s|] == s;
    ContainsIff(a + s, s);
    ContainsTransitive(a + s, s, p);
  }

  // ---------------------------------------------------------------------------
  // Ordering

  /** Python's `a <= b` on strings: code point by code point, a proper prefix first. */
  predicate LexLe(a: string, b: string)
    decreases |a|
  {
    a == [] || (b != [] && (a[0] < b[0] || (a[0] == b[0] && LexLe(a[1..], b[1..]))))
  }

  lemma {:induction false} LexLeReflexive(a: string)
    ensures LexLe(a, a)
  {
    if a != [] {
      LexLeReflexive(a[1..]);
    }
  }

  lemma {:induction false} LexLeTotal(a: string, b: string)
    ensures LexLe(a, b) || LexLe(b, a)
    decreases |a|
  {
    if a != [] && b != [] && a[0] == b[0] {
      LexLeTotal(a[1..], b[1..]);
    }
  }

  lemma {:induction false} LexLeTransitive(a: string, b: string, c: string)
    requires LexLe(a, b) && LexLe(b, c)
    ensures LexLe(a, c)
    decreases |a|
  {
    if a != [] && a[0] == b[0] && b[0] == c[0] {
      LexLeTransitive(a[1..], b[1..], c[1..]);
    }
  }

  lemma {:induction false} LexLeAntisymmetric(a: string, b: string)
    requires LexLe(a, b) && LexLe(b, a)
    ensures a == b
    decreases |a|
  {
    if a != [] {
      LexLeAntisymmetric(a[1..], b[1..]);
      assert a == [a[0]] + a[1..] && b == [b[0]] + b[1..];
    }
  }

  // ---------------------------------------------------------------------------
  // strip()

  function LStrip(s: string): string {
    if s != [] && IsSpace(s[0]) then LStrip(s[1..]) else s
  }

  function RStrip(s: string): string {
    if s != [] && IsSpace(s[|s| - 1]) then RStrip(s[..|s| - 1]) else s
  }

  /** Stripping on the left cuts off a whitespace-only prefix and stops at a non-space. */
  lemma {:induction false} LStripSpec(s: string)
    ensures var r := LStrip(s);
      && |r| <= |s| && r == s[|s| - |r|..]
      && (forall i :: 0 <= i < |s| - |r| ==> IsSpace(s[i]))
      && (r == [] || !IsSpace(r[0]))
  {
    if s != [] && IsSpace(s[0]) {
      var t := s[1..];
      LStripSpec(t);
      var r := LStrip(t);
      assert t[|t| - |r|..] == s[|s| - |r|..];
      forall i | 0 <= i < |s| - |r|
        ensures IsSpace(s[i])
      {
        if i > 0 {
          assert s[i] == t[i - 1];
        }
      }
    }
  }

  /** Stripping on the right cuts off a whitespace-only suffix and stops at a non-space. */
  lemma {:induction false} RStripSpec(s: string)
    ensures var r := RStrip(s);
      && |r| <= |s| && r == s[..|r|]
      && (forall i :: |r| <= i < |s| ==> IsSpace(s[i]))
      && (r == [] || !IsSpace(r[|r| - 1]))
  {
    if s != [] && IsSpace(s[|s| - 1]) {
      var t := s[..|s| - 1];
      RStripSpec(t);
      var r := RStrip(t);
      assert t[..|r|] == s[..|r|];
      forall i | |r| <= i < |s|
        ensures IsSpace(s[i])
      {
        if i < |t| {
          assert s[i] == t[i];
        }
      }
    }
  }

  /** Python's `str.strip()`. */
  function Strip(s: string): string {
    LStrip(RStrip(s))
  }

  /** `r` is `s` with the whitespace-only runs `s[..a]` and `s[a + |r|..]` cut off. */
  ghost predicate TrimmedAt(s: string, r: string, a: nat) {
    && a + |r| <= |s| && s[a..a + |r|] == r
    && (forall i :: 0 <= i < a ==> IsSpace(s[i]))
    && (forall i :: a + |r| <= i < |s| ==> IsSpace(s[i]))
  }

  /** Stripping removes only whitespace, from both ends, and leaves none there. */
  lemma StripSpec(s: string)
    ensures var r := Strip(s);
      && (r == [] || (!IsSpace(r[0]) && !IsSpace(r[|r| - 1])))
      && exists a: nat :: TrimmedAt(s, r, a)
  {
    var m := RStrip(s);
    var r := LStrip(m);
    RStripSpec(s);
    LStripSpec(m);
    var a := |m| - |r|;
    assert s[a..a + |r|] == m[a..];
    assert TrimmedAt(s, r, a);
    if r != [] {
      assert r[|r| - 1] == m[|m| - 1];
    }
  }

  lemma StripNoSpace(s: string)
    requires s == [] || (!IsSpace(s[0]) && !IsSpace(s[|s| - 1]))
    ensures Strip(s) == s
  {
  }

  // ---------------------------------------------------------------------------
  // split() and " ".join

  /** A word of `str.split()`: non-empty and free of whitespace. */
  predicate IsWord(w: string) {
    |w| > 0 && forall i :: 0 <= i < |w| ==> !IsSpace(w[i])
  }

  /** The longest whitespace-free prefix of `s`. */
  function TakeWord(s: string): (w: string)
    ensures |w| <= |s| && w == s[..|w|]
    ensures forall i :: 0 <= i < |w| ==> !IsSpace(w[i])
    ensures |w| < |s| ==> IsSpace(s[|w|])
  {
    if s == [] || IsSpace(s[0]) then [] else [s[0]] + TakeWord(s[1..])
  }

  /** Python's `s.split()` with no argument. */
  function Words(s: string): (ws: seq<string>)
    decreases |s|
  {
    if s == [] then []
    else if IsSpace(s[0]) then Words(s[1..])
    else
      var w := TakeWord(s);
      [w] + Words(s[|w|..])
  }

  /** `" ".join(ws)`. */
  function JoinSpace(ws: seq<string>): string {
    if ws == [] then ""
    else if |ws| == 1 then ws[0]
    else ws[0] + " " + JoinSpace(ws[1..])
  }

  /** Every piece `split()` returns is a word whose characters come from the input. */
  lemma {:induction false} WordsAreWords(s: string, P: char -> bool)
    requires forall i :: 0 <= i < |s| && !IsSpace(s[i]) ==> P(s[i])
    ensures forall k :: 0 <= k < |Words(s)| ==> IsWord(Words(s)[k])
    ensures forall k, i :: 0 <= k < |Words(s)| && 0 <= i < |Words(s)[k]| ==> P(Words(s)[k][i])
    decreases |s|
  {
    if s == [] {
    } else if IsSpace(s[0]) {
      WordsAreWords(s[1..], P);
    } else {
      var w := TakeWord(s);
      WordsAreWords(s[|w|..], P);
      assert Words(s) == [w] + Words(s[|w|..]);
      forall i | 0 <= i < |w| ensures P(w[i]) {
        assert w[i] == s[i];
      }
    }
  }

  lemma TakeWordOfWord(w: string, rest: string)
    requires IsWord(w)
    requires rest == [] || IsSpace(rest[0])
    ensures TakeWord(w + rest) == w
    decreases |w|
  {
    if |w| > 1 {
      assert (w + rest)[1..] == w[1..] + rest;
      TakeWordOfWord(w[1..], rest);
    } else {
      assert (w + rest)[1..] == rest;
    }
  }

  /** `split()` undoes `" ".join` on a list of words. */
  lemma {:induction false} WordsOfJoin(ws: seq<string>)
    requires forall k :: 0 <= k < |ws| ==> IsWord(ws[k])
    ensures Words(JoinSpace(ws)) == ws
  {
    if ws == [] {
    } else if |ws| == 1 {
      TakeWordOfWord(ws[0], "");
      assert ws[0] + "" == ws[0];
      assert ws[0][|ws[0]|..] == [];
    } else {
      var rest := JoinSpace(ws[1..]);
      var s := ws[0] + " " + rest;
      assert s == ws[0] + (" " + rest);
      TakeWordOfWord(ws[0], " " + rest);
      assert s[|ws[0]|..] == " " + rest;
      assert (" " + rest)[1..] == rest;
      WordsOfJoin(ws[1..]);
      assert Words(" " + rest) == Words(rest);
      assert ws == [ws[0]] + ws[1..];
    }
  }

  /**
   * A normalised text: no whitespace at either end, no two whitespace characters
   * side by side, and the only whitespace used is the plain space.
   */
  predicate SingleSpaced(s: string) {
    && (s == [] || (s[0] != ' ' && s[|s| - 1] != ' '))
    && (forall i :: 0 <= i < |s| ==> (IsSpace(s[i]) ==> s[i] == ' '))
    && (forall i :: 0 <= i < |s| - 1 ==> !(s[i] == ' ' && s[i + 1] == ' '))
  }

  /** Joining words with single spaces gives a single-spaced text made of their characters. */
  lemma {:induction false} JoinSingleSpaced(ws: seq<string>, P: char -> bool)
    requires forall k :: 0 <= k < |ws| ==> IsWord(ws[k])
    requires forall k, i :: 0 <= k < |ws| && 0 <= i < |ws[k]| ==> P(ws[k][i])
    ensures SingleSpaced(JoinSpace(ws))
    ensures forall i :: 0 <= i < |JoinSpace(ws)| ==> JoinSpace(ws)[i] == ' ' || P(JoinSpace(ws)[i])
  {
    if |ws| == 0 {
    } else if |ws| == 1 {
      assert JoinSpace(ws) == ws[0];
    } else {
      var w := ws[0];
      var rest := JoinSpace(ws[1..]);
      JoinSingleSpaced(ws[1..], P);
      assert rest != [] by {
        assert IsWord(ws[1]);
        if |ws[1..]| > 1 {
          assert rest == ws[1] + " " + JoinSpace(ws[2..]);
        }
      }
      var s := w + " " + rest;
      assert JoinSpace(ws) == s;
      forall i | 0 <= i < |s| ensures s[i] == ' ' || P(s[i]) {
        if i < |w| { assert s[i] == w[i]; }
        else if i > |w| { assert s[i] == rest[i - |w| - 1]; }
      }
      forall i | 0 <= i < |s| ensures IsSpace(s[i]) ==> s[i] == ' ' {
        if i < |w| { assert s[i] == w[i]; }
        else if i > |w| { assert s[i] == rest[i - |w| - 1]; }
      }
      forall i | 0 <= i < |s| - 1 ensures !(s[i] == ' ' && s[i + 1] == ' ') {
        if i + 1 < |w| { assert s[i] == w[i]; }
        else if i + 1 == |w| { assert s[i] == w[i]; }
        else if i == |w| { assert s[i + 1] == rest[0]; }
        else { assert s[i] == rest[i - |w| - 1] && s[i + 1] == rest[i - |w|]; }
      }
      assert s[|s| - 1] == rest[|rest| - 1];
    }
  }

  // ---------------------------------------------------------------------------
  // replace(p, "") and split(c, 1)

  /** The text of `s[i..]` with every left-to-right, non-overlapping occurrence of `p` removed. */
  function RemoveFrom(s: string, p: string, i: nat): (r: string)
    requires |p| > 0 && i <= |s|
    ensures |r| <= |s| - i
    decreases |s| - i
  {
    if i + |p| > |s| then s[i..]
    else if MatchesAt(s, p, i) then RemoveFrom(s, p, i + |p|)
    else [s[i]] + RemoveFrom(s, p, i + 1)
  }

  /** Python's `s.replace(p, "")`. */
  function RemoveAll(s: string, p: string): string
    requires |p| > 0
  {
    RemoveFrom(s, p, 0)
  }

  lemma {:induction false} RemoveFromAbsent(s: string, p: string, i: nat)
    requires |p| > 0 && i <= |s| && !ContainsFrom(s, p, i)
    ensures RemoveFrom(s, p, i) == s[i..]
    decreases |s| - i
  {
    if i + |p| <= |s| {
      RemoveFromAbsent(s, p, i + 1);
      assert s[i..] == [s[i]] + s[i + 1..];
    }
  }

  /** Removing a pattern that does not occur changes nothing. */
  lemma RemoveAllAbsent(s: string, p: string)
    requires |p| > 0 && !Contains(s, p)
    ensures RemoveAll(s, p) == s
  {
    RemoveFromAbsent(s, p, 0);
  }

  /** Python's `s.replace(a, b)` for single characters. */
  function ReplaceChar(s: string, a: char, b: char): (r: string)
    ensures |r| == |s|
    ensures forall i :: 0 <= i < |s| ==> r[i] == (if s[i] == a then b else s[i])
  {
    seq(|s|, i requires 0 <= i < |s| => if s[i] == a then b else s[i])
  }

  /**
   * Replacing `a` by another character leaves no `a` behind, changes the text
   * exactly when `a` occurs in it, and keeps every other character where it was;
   * replacing a character by itself changes nothing.
   */
  lemma ReplaceCharSpec(s: string, a: char, b: char)
    ensures a == b ==> ReplaceChar(s, a, b) == s
    ensures a != b ==> a !in ReplaceChar(s, a, b)
    ensures a != b ==> (ReplaceChar(s, a, b) == s <==> a !in s)
    ensures forall i :: 0 <= i < |s| && s[i] != a ==> ReplaceChar(s, a, b)[i] == s[i]
  {
    var r := ReplaceChar(s, a, b);
    if a == b || a !in s {
      assert forall i :: 0 <= i < |s| ==> r[i] == s[i];
    }
    if a != b && a in s {
      var k :| 0 <= k < |s| && s[k] == a;
      assert r[k] != s[k];
    }
  }

  /** The position of the first `c` in `s[i..]`, if any. */
  function IndexOfFrom(s: string, c: char, i: nat): (r: Option<nat>)
    requires i <= |s|
    ensures r.Some? ==> i <= r.value < |s| && s[r.value] == c
    ensures r.Some? ==> forall k :: i <= k < r.value ==> s[k] != c
    ensures r.None? ==> forall k :: i <= k < |s| ==> s[k] != c
    decreases |s| - i
  {
    if i == |s| then None else if s[i] == c then Some(i) else IndexOfFrom(s, c, i + 1)
  }

  /** Python's `s.split(c, 1)` when it yields two parts; `None` when `c` does not occur. */
  function SplitFirst(s: string, c: char): (r: Option<(string, string)>)
  {
    match IndexOfFrom(s, c, 0)
    case None => None
    case Some(k) => Some((s[..k], s[k + 1..]))
  }

  /** Splitting at the first `c` is undone by rejoining with `c`, and the head holds no `c`. */
  lemma SplitFirstSpec(s: string, c: char)
    ensures SplitFirst(s, c).None? <==> (forall k :: 0 <= k < |s| ==> s[k] != c)
    ensures SplitFirst(s, c).Some? ==>
      var (a, b) := SplitFirst(s, c).value;
      a + [c] + b == s && forall k :: 0 <= k < |a| ==> a[k] != c
  {
    match IndexOfFrom(s, c, 0)
    case None =>
    case Some(k) =>
      assert s[..k] + [c] + s[k + 1..] == s;
  }

  /** `split(c, 1)` cuts at the first occurrence of `c`. */
  lemma SplitFirstAt(s: string, c: char, k: nat)
    requires k < |s| && s[k] == c && forall i :: 0 <= i < k ==> s[i] != c
    ensures SplitFirst(s, c) == Some((s[..k], s[k + 1..]))
  {
  }

  /** The last `/`-separated segment of a path (`os.path.basename`). */
  function AfterLast(s: string, c: char): (r: string)
    ensures |r| <= |s| && r == s[|s| - |r|..]
    ensures forall k :: 0 <= k < |r| ==> r[k] != c
    ensures |r| < |s| ==> s[|s| - |r| - 1] == c
  {
    if s == [] || s[|s| - 1] == c then [] else AfterLast(s[..|s| - 1], c) + [s[|s| - 1]]
  }

  // ---------------------------------------------------------------------------
  // Decimal numerals (`f"{n}"` for a non-negative int)

  function DigitChar(d: nat): char
    requires d < 10
  {
    ('0' as int + d) as char
  }

  function Decimal(n: nat): (r: string)
    ensures |r| > 0 && forall i :: 0 <= i < |r| ==> IsDigit(r[i])
  {
    if n < 10 then [DigitChar(n)] else Decimal(n / 10) + [DigitChar(n % 10)]
  }

  function DigitValue(c: char): nat
    requires IsDigit(c)
  {
    c as int - '0' as int
  }

  function ParseDecimal(s: string): nat
    requires forall i :: 0 <= i < |s| ==> IsDigit(s[i])
  {
    if s == [] then 0 else ParseDecimal(s[..|s| - 1]) * 10 + DigitValue(s[|s| - 1])
  }

  /** Reading back a formatted number gives the number; the numeral has no leading zero. */
  lemma {:induction false} DecimalRoundTrip(n: nat)
    ensures ParseDecimal(Decimal(n)) == n
    ensures n > 0 ==> Decimal(n)[0] != '0'
  {
    if n >= 10 {
      DecimalRoundTrip(n / 10);
      var r := Decimal(n);
      assert r[..|r| - 1] == Decimal(n / 10);
    }
  }
}

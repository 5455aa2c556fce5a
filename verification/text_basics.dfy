/**
 * Character classes and string scanning shared by the readability code:
 * whitespace as `str.split()` / `str.strip()` see it (ASCII only), ASCII
 * lower-casing, and the count of maximal runs of characters that satisfy a
 * predicate, which is the reference definition behind the syllable count,
 * the word count and the sentence count.
 */
module TextBasics {

  /** The ASCII characters Python treats as whitespace: space, \t \n \v \f \r and \x1c-\x1f. */
  predicate IsSpace(c: char) {
    c == ' ' || ('\t' <= c <= '\r') || ('\U{1C}' <= c <= '\U{1F}')
  }

  predicate NotSpace(c: char) {
    !IsSpace(c)
  }

  /** The characters of the sentence-splitting pattern `[.!?]+`. */
  predicate IsTerminator(c: char) {
    c == '.' || c == '!' || c == '?'
  }

  predicate IsBlank(s: string) {
    forall i :: 0 <= i < |s| ==> IsSpace(s[i])
  }

  function LowerChar(c: char): (r: char)
    ensures 'A' <= c <= 'Z' ==> 'a' <= r <= 'z' && r as int == c as int + 32
    ensures !('A' <= c <= 'Z') ==> r == c
  {
    if 'A' <= c <= 'Z' then (c as int + 32) as char else c
  }

  /** `str.lower()` restricted to ASCII letters. */
  function Lower(s: string): (r: string)
    ensures |r| == |s|
    ensures forall i :: 0 <= i < |s| ==> r[i] == LowerChar(s[i])
    ensures forall i :: 0 <= i < |s| && 'A' <= s[i] <= 'Z' ==> r[i] as int == s[i] as int + 32
    ensures forall i :: 0 <= i < |s| && !('A' <= s[i] <= 'Z') ==> r[i] == s[i]
  {
    seq(|s|, i requires 0 <= i < |s| => LowerChar(s[i]))
  }

  // ---------------------------------------------------------------------
  // Maximal runs
  // ---------------------------------------------------------------------

  /** Position i opens a maximal run of p-characters. */
  predicate RunStart(s: string, i: int, p: char -> bool)
    requires 0 <= i < |s|
  {
    p(s[i]) && (i == 0 || !p(s[i - 1]))
  }

  /** The number of maximal runs of p-characters in s, counted from the left. */
  function Runs(s: string, p: char -> bool): nat
    decreases |s|
  {
    if s == [] then 0
    else Runs(s[..|s| - 1], p) + (if RunStart(s, |s| - 1, p) then 1 else 0)
  }

  /** Extending a prefix by one character adds one run exactly when that character opens one. */
  lemma RunsSnoc(s: string, i: int, p: char -> bool)
    requires 0 <= i < |s|
    ensures Runs(s[..i + 1], p) == Runs(s[..i], p) + (if RunStart(s, i, p) then 1 else 0)
  {
    assert s[..i + 1][..i] == s[..i];
  }

  /** There are never more runs than characters. */
  lemma {:induction false} RunsAtMostLength(s: string, p: char -> bool)
    ensures Runs(s, p) <= |s|
  {
    if s != [] {
      RunsAtMostLength(s[..|s| - 1], p);
    }
  }

  /** A string whose last character satisfies p has at least one run. */
  lemma {:induction false} RunsOfTrailingMember(s: string, p: char -> bool)
    requires |s| > 0 && p(s[|s| - 1])
    ensures Runs(s, p) >= 1
  {
    if !RunStart(s, |s| - 1, p) {
      RunsOfTrailingMember(s[..|s| - 1], p);
    }
  }

  /** No runs exactly when no character satisfies p. */
  lemma {:induction false} RunsZeroIff(s: string, p: char -> bool)
    ensures Runs(s, p) == 0 <==> forall i :: 0 <= i < |s| ==> !p(s[i])
  {
    if s != [] {
      var t := s[..|s| - 1];
      RunsZeroIff(t, p);
      if p(s[|s| - 1]) {
        RunsOfTrailingMember(s, p);
      } else {
        assert forall i :: 0 <= i < |t| ==> t[i] == s[i];
      }
    }
  }

  /** Prepending a character: it opens a new run unless it merges with a run at the front. */
  lemma {:induction false} RunsCons(c: char, s: string, p: char -> bool)
    ensures Runs([c] + s, p)
         == Runs(s, p) + (if p(c) then 1 else 0) - (if p(c) && s != [] && p(s[0]) then 1 else 0)
  {
    var t := [c] + s;
    if s != [] {
      var s' := s[..|s| - 1];
      assert t[..|t| - 1] == [c] + s';
      RunsCons(c, s', p);
    }
  }

  /** Concatenation: the runs of both parts, less one when a run straddles the seam. */
  lemma {:induction false} RunsAppend(a: string, b: string, p: char -> bool)
    ensures Runs(a + b, p)
         == Runs(a, p) + Runs(b, p) - (if a != [] && b != [] && p(a[|a| - 1]) && p(b[0]) then 1 else 0)
    decreases |b|
  {
    if b == [] {
      assert a + b == a;
    } else {
      var b' := b[..|b| - 1];
      assert (a + b)[..|a + b| - 1] == a + b';
      RunsAppend(a, b', p);
    }
  }

  /** A separator outside p splits the runs of both sides cleanly. */
  lemma RunsSeparated(a: string, c: char, b: string, p: char -> bool)
    requires !p(c)
    ensures Runs(a + [c] + b, p) == Runs(a, p) + Runs(b, p)
  {
    RunsAppend(a, [c], p);
    RunsAppend(a + [c], b, p);
    assert Runs([c], p) == 0 by { assert [c][..0] == []; }
  }

  /** A non-empty string made only of p-characters is a single run. */
  lemma SingleRun(w: string, p: char -> bool)
    requires w != [] && forall i :: 0 <= i < |w| ==> p(w[i])
    ensures Runs(w, p) == 1
  {
    RunsSpan(w, |w|, p);
    assert w[|w|..] == [];
  }

  /** A leading run of length n accounts for exactly one run. */
  lemma {:induction false} RunsSpan(s: string, n: nat, p: char -> bool)
    requires 0 < n <= |s|
    requires forall i :: 0 <= i < n ==> p(s[i])
    requires n == |s| || !p(s[n])
    ensures Runs(s, p) == 1 + Runs(s[n..], p)
  {
    assert s == [s[0]] + s[1..];
    RunsCons(s[0], s[1..], p);
    if n > 1 {
      RunsSpan(s[1..], n - 1, p);
      assert s[1..][n - 1..] == s[n..];
    }
  }

  /** A leading character outside p neither opens nor closes a run. */
  lemma RunsSkip(s: string, p: char -> bool)
    requires s != [] && !p(s[0])
    ensures Runs(s, p) == Runs(s[1..], p)
  {
    assert s == [s[0]] + s[1..];
    RunsCons(s[0], s[1..], p);
  }

  /** The length of the longest prefix of p-characters. */
  function SpanLen(s: string, p: char -> bool): (n: nat)
    ensures n <= |s|
    ensures forall i :: 0 <= i < n ==> p(s[i])
    ensures n == |s| || !p(s[n])
    decreases |s|
  {
    if s == [] || !p(s[0]) then 0 else 1 + SpanLen(s[1..], p)
  }

  // ---------------------------------------------------------------------
  // str.split() and re.split(r"[.!?]+", ...)
  // ---------------------------------------------------------------------

  /** `s.split()`: the maximal runs of non-whitespace characters, in order. */
  function Words(s: string): (ws: seq<string>)
    ensures forall k :: 0 <= k < |ws| ==> ws[k] != [] && forall i :: 0 <= i < |ws[k]| ==> NotSpace(ws[k][i])
    decreases |s|
  {
    if s == [] then []
    else if IsSpace(s[0]) then Words(s[1..])
    else
      var n := SpanLen(s, NotSpace);
      [s[..n]] + Words(s[n..])
  }

  /** The word count is the number of maximal non-whitespace runs. */
  lemma {:induction false} WordsCount(s: string)
    ensures |Words(s)| == Runs(s, NotSpace)
    decreases |s|
  {
    if s != [] {
      if IsSpace(s[0]) {
        RunsSkip(s, NotSpace);
        WordsCount(s[1..]);
      } else {
        var n := SpanLen(s, NotSpace);
        RunsSpan(s, n, NotSpace);
        WordsCount(s[n..]);
      }
    }
  }

  /** Splitting distributes over a whitespace separator. */
  lemma {:induction false} WordsSeparated(a: string, c: char, b: string)
    requires IsSpace(c)
    ensures Words(a + [c] + b) == Words(a) + Words(b)
    decreases |a|
  {
    var s := a + [c] + b;
    if a == [] {
      assert s[1..] == b;
    } else if IsSpace(a[0]) {
      assert s[1..] == a[1..] + [c] + b;
      WordsSeparated(a[1..], c, b);
    } else {
      var m := SpanLen(a, NotSpace);
      SpanStopsAtSeparator(a, c, b);
      assert s[..m] == a[..m];
      assert s[m..] == a[m..] + [c] + b;
      WordsSeparated(a[m..], c, b);
    }
  }

  /** A word of a + [c] + b that starts in a ends within a when c is whitespace. */
  lemma {:induction false} SpanStopsAtSeparator(a: string, c: char, b: string)
    requires IsSpace(c)
    ensures SpanLen(a + [c] + b, NotSpace) == SpanLen(a, NotSpace)
    decreases |a|
  {
    if a != [] && NotSpace(a[0]) {
      assert (a + [c] + b)[1..] == a[1..] + [c] + b;
      SpanStopsAtSeparator(a[1..], c, b);
    }
  }

  /** A non-empty string without whitespace splits into itself. */
  lemma SingleWord(w: string)
    requires w != []
    requires forall i :: 0 <= i < |w| ==> NotSpace(w[i])
    ensures Words(w) == [w]
  {
    SpanOfAll(w, NotSpace);
    assert w[..|w|] == w && w[|w|..] == [];
    assert Words(w) == [w[..|w|]] + Words(w[|w|..]);
  }

  lemma {:induction false} SpanOfAll(s: string, p: char -> bool)
    requires forall i :: 0 <= i < |s| ==> p(s[i])
    ensures SpanLen(s, p) == |s|
    decreases |s|
  {
    if s != [] {
      SpanOfAll(s[1..], p);
    }
  }

  /** `" ".join(ws)`. */
  function JoinWords(ws: seq<string>): string
    decreases |ws|
  {
    if ws == [] then "" else if |ws| == 1 then ws[0] else ws[0] + " " + JoinWords(ws[1..])
  }

  /** Splitting words joined by single spaces gives the words back. */
  lemma {:induction false} WordsOfJoin(ws: seq<string>)
    requires forall k :: 0 <= k < |ws| ==> ws[k] != [] && forall i :: 0 <= i < |ws[k]| ==> NotSpace(ws[k][i])
    ensures Words(JoinWords(ws)) == ws
    decreases |ws|
  {
    if |ws| == 1 {
      SingleWord(ws[0]);
      assert ws == [ws[0]];
    } else if |ws| > 1 {
      WordsOfJoin(ws[1..]);
      WordsSeparated(ws[0], ' ', JoinWords(ws[1..]));
      SingleWord(ws[0]);
      assert ws == [ws[0]] + ws[1..];
    }
  }

  /** `s.split()` is empty exactly when s is blank. */
  lemma WordsEmptyIff(s: string)
    ensures Words(s) == [] <==> IsBlank(s)
  {
    WordsCount(s);
    RunsZeroIff(s, NotSpace);
  }

  /** `re.split(r"[.!?]+", s)`: the pieces between maximal runs of terminators, in order. */
  function SentencePieces(s: string): (ps: seq<string>)
    ensures |ps| >= 1
    ensures forall k, i :: 0 <= k < |ps| && 0 <= i < |ps[k]| ==> !IsTerminator(ps[k][i])
    decreases |s|
  {
    if s == [] then [""]
    else if IsTerminator(s[0]) then [""] + SentencePieces(s[SpanLen(s, IsTerminator)..])
    else
      var rest := SentencePieces(s[1..]);
      [[s[0]] + rest[0]] + rest[1..]
  }

  /** Splitting yields one more piece than there are runs of terminators. */
  lemma {:induction false} SentencePiecesCount(s: string)
    ensures |SentencePieces(s)| == 1 + Runs(s, IsTerminator)
    decreases |s|
  {
    if s != [] {
      if IsTerminator(s[0]) {
        var n := SpanLen(s, IsTerminator);
        RunsSpan(s, n, IsTerminator);
        SentencePiecesCount(s[n..]);
      } else {
        RunsSkip(s, IsTerminator);
        SentencePiecesCount(s[1..]);
      }
    }
  }

  // ---------------------------------------------------------------------
  // str.strip()
  // ---------------------------------------------------------------------

  function TrimLeft(s: string): (r: string)
    ensures |r| <= |s| && r == s[|s| - |r|..]
    ensures IsBlank(s[..|s| - |r|])
    ensures r == [] || !IsSpace(r[0])
    decreases |s|
  {
    if s != [] && IsSpace(s[0]) then TrimLeft(s[1..]) else s
  }

  function TrimRight(s: string): (r: string)
    ensures |r| <= |s| && r == s[..|r|]
    ensures IsBlank(s[|r|..])
    ensures r == [] || !IsSpace(r[|r| - 1])
    decreases |s|
  {
    if s != [] && IsSpace(s[|s| - 1]) then
      var r := TrimRight(s[..|s| - 1]);
      assert s[|r|..] == s[..|s| - 1][|r|..] + [s[|s| - 1]];
      r
    else s
  }

  /** `s.strip()`: leading whitespace is dropped first, then trailing whitespace. */
  function Strip(s: string): (r: string)
    ensures |r| <= |s|
    ensures r == [] || (!IsSpace(r[0]) && !IsSpace(r[|r| - 1]))
    ensures r == [] <==> IsBlank(s)
    decreases |s|
  {
    if s == [] then []
    else if IsSpace(s[0]) then
      BlankShift(s);
      Strip(s[1..])
    else if IsSpace(s[|s| - 1]) then
      Strip(s[..|s| - 1])
    else s
  }

  lemma BlankShift(s: string)
    requires s != [] && IsSpace(s[0])
    ensures IsBlank(s) <==> IsBlank(s[1..])
  {
    if IsBlank(s[1..]) {
      forall i | 0 <= i < |s| ensures IsSpace(s[i]) {
        if i > 0 {
          assert s[i] == s[1..][i - 1];
        }
      }
    }
  }

  /** Once the first character is not whitespace, stripping only trims the right end. */
  lemma {:induction false} StripRight(s: string)
    requires s == [] || !IsSpace(s[0])
    ensures Strip(s) == TrimRight(s)
    decreases |s|
  {
    if s != [] && IsSpace(s[|s| - 1]) {
      StripRight(s[..|s| - 1]);
    }
  }

  /**
   * Stripping is trimming the left end and then the right end, so the result
   * is the middle slice of s, with only whitespace cut off on either side.
   */
  lemma {:induction false} StripIsTrim(s: string)
    ensures Strip(s) == TrimRight(TrimLeft(s))
    decreases |s|
  {
    if s != [] && IsSpace(s[0]) {
      StripIsTrim(s[1..]);
    } else {
      StripRight(s);
    }
  }
}

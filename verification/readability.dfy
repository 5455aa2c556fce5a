/**
 * `calculate_readability_metrics`: word and sentence counts, the syllable
 * total, and the Flesch reading-ease formula over exact reals.
 */
module Readability {
  import opened Wrappers
  import opened TextBasics
  import opened SyllableCounting

  /** The integer part of the metrics record; the two averages are derived from it below. */
  datatype Metrics = Metrics(wordCount: nat, sentenceCount: nat, syllables: nat)

  /** `sum(count_syllables(w) for w in words)`. */
  function TotalSyllables(words: seq<string>): (total: nat)
    decreases |words|
  {
    if words == [] then 0
    else Syllables(words[0]) + TotalSyllables(words[1..])
  }

  /** Every word contributes at least one syllable and at most its length. */
  lemma {:induction false} TotalSyllablesBounds(words: seq<string>)
    requires forall k :: 0 <= k < |words| ==> words[k] != []
    ensures |words| <= TotalSyllables(words)
    ensures TotalSyllables(words) <= SumOfLengths(words)
    decreases |words|
  {
    if words != [] {
      TotalSyllablesBounds(words[1..]);
    }
  }

  function SumOfLengths(words: seq<string>): nat
    decreases |words|
  {
    if words == [] then 0 else |words[0]| + SumOfLengths(words[1..])
  }

  /** `calculate_readability_metrics`, integer part: `None` when the text has no words. */
  function ReadabilityMetrics(text: string): (m: Option<Metrics>)
    ensures m.None? <==> IsBlank(text)
    ensures m.Some? ==> m.value.wordCount == Runs(text, NotSpace) >= 1
    ensures m.Some? ==> m.value.sentenceCount == 1 + Runs(text, IsTerminator)
    ensures m.Some? ==> m.value.wordCount <= m.value.syllables
  {
    var sentences := SentencePieces(text);
    var words := Words(text);
    WordsEmptyIff(text);
    WordsCount(text);
    SentencePiecesCount(text);
    TotalSyllablesBounds(words);
    if |sentences| > 0 && |words| > 0 then
      Some(Metrics(|words|, |sentences|, TotalSyllables(words)))
    else
      None
  }

  /** `len(words) / len(sentences)`, before rounding. */
  function AvgSentenceLength(m: Metrics): real
    requires m.sentenceCount > 0
  {
    m.wordCount as real / m.sentenceCount as real
  }

  /** `syllables / len(words)`. */
  function AvgSyllables(m: Metrics): real
    requires m.wordCount > 0
  {
    m.syllables as real / m.wordCount as real
  }

  /** The Flesch reading-ease score, before rounding; it is not clamped to [0, 100]. */
  function ReadingEase(m: Metrics): real
    requires m.wordCount > 0 && m.sentenceCount > 0
  {
    206.835 - 1.015 * AvgSentenceLength(m) - 84.6 * AvgSyllables(m)
  }

  lemma QuotientPositive(a: real, b: real)
    requires a > 0.0 && b > 0.0
    ensures a / b > 0.0
  {
    var q := a / b;
    assert q * b == a;
  }

  lemma QuotientAtLeastOne(a: real, b: real)
    requires b > 0.0 && a >= b
    ensures a / b >= 1.0
  {
    var q := a / b;
    assert q * b == a;
  }

  /**
   * Whenever metrics are produced both divisions are defined, and since every
   * word has at least one syllable the score is strictly below 206.835 - 84.6.
   */
  lemma ReadingEaseBelowCeiling(text: string)
    requires ReadabilityMetrics(text).Some?
    ensures ReadabilityMetrics(text).value.wordCount > 0
    ensures ReadabilityMetrics(text).value.sentenceCount > 0
    ensures ReadingEase(ReadabilityMetrics(text).value) < 122.235
  {
    var m := ReadabilityMetrics(text).value;
    QuotientPositive(m.wordCount as real, m.sentenceCount as real);
    QuotientAtLeastOne(m.syllables as real, m.wordCount as real);
  }

  /** Three non-empty words joined by single spaces make three words. */
  lemma ThreeWords(x: string, y: string, z: string)
    requires x != [] && y != [] && z != []
    requires forall i :: 0 <= i < |x| ==> NotSpace(x[i])
    requires forall i :: 0 <= i < |y| ==> NotSpace(y[i])
    requires forall i :: 0 <= i < |z| ==> NotSpace(z[i])
    ensures Runs(x + [' '] + y + [' '] + z, NotSpace) == 3
  {
    SingleRun(x, NotSpace);
    SingleRun(y, NotSpace);
    SingleRun(z, NotSpace);
    RunsSeparated(x, ' ', y, NotSpace);
    RunsSeparated(x + [' '] + y, ' ', z, NotSpace);
  }

  /** Text without terminators followed by one full stop has one run of terminators. */
  lemma OneFullStop(x: string)
    requires forall i :: 0 <= i < |x| ==> !IsTerminator(x[i])
    ensures Runs(x + ".", IsTerminator) == 1
  {
    RunsZeroIff(x, IsTerminator);
    assert Runs(".", IsTerminator) == 1 by { assert "."[..0] == ""; }
    RunsAppend(x, ".", IsTerminator);
  }

  /** A sentence of three words and one full stop has three words and one run of terminators. */
  lemma ThreeWordSentence(x: string, y: string, z: string)
    requires x != [] && y != [] && z != []
    requires forall i :: 0 <= i < |x| ==> NotSpace(x[i]) && !IsTerminator(x[i])
    requires forall i :: 0 <= i < |y| ==> NotSpace(y[i]) && !IsTerminator(y[i])
    requires forall i :: 0 <= i < |z| ==> NotSpace(z[i]) && !IsTerminator(z[i])
    ensures Runs(x + [' '] + y + [' '] + (z + "."), NotSpace) == 3
    ensures Runs(x + [' '] + y + [' '] + (z + "."), IsTerminator) == 1
  {
    var w := z + ".";
    forall i | 0 <= i < |w|
      ensures NotSpace(w[i])
    {
      if i < |z| {
        assert w[i] == z[i];
      }
    }
    ThreeWords(x, y, w);
    RunsZeroIff(x, IsTerminator);
    RunsZeroIff(y, IsTerminator);
    OneFullStop(z);
    RunsSeparated(x, ' ', y, IsTerminator);
    RunsSeparated(x + [' '] + y, ' ', w, IsTerminator);
  }

  /** `split()` yields the six words of the sample, punctuation attached, in order. */
  lemma SampleWords()
    ensures Words("The cat sat. The dog ran.") == ["The", "cat", "sat.", "The", "dog", "ran."]
  {
    var ws := ["The", "cat", "sat.", "The", "dog", "ran."];
    SampleWordsShape();
    WordsOfJoin(ws);
    SampleJoin();
  }

  lemma SampleWordsShape()
    ensures var ws := ["The", "cat", "sat.", "The", "dog", "ran."];
      forall k :: 0 <= k < |ws| ==> ws[k] != [] && forall i :: 0 <= i < |ws[k]| ==> NotSpace(ws[k][i])
  {
  }

  lemma SampleJoin()
    ensures JoinWords(["The", "cat", "sat.", "The", "dog", "ran."]) == "The cat sat. The dog ran."
  {
    JoinPair("dog", "ran.");
    JoinCons("The", ["dog", "ran."]);
    JoinCons("sat.", ["The", "dog", "ran."]);
    JoinCons("cat", ["sat.", "The", "dog", "ran."]);
    JoinCons("The", ["cat", "sat.", "The", "dog", "ran."]);
  }

  lemma JoinPair(a: string, b: string)
    ensures JoinWords([a, b]) == a + " " + b
  {
    assert [a, b][1..] == [b];
  }

  lemma JoinCons(a: string, ws: seq<string>)
    requires ws != []
    ensures JoinWords([a] + ws) == a + " " + JoinWords(ws)
  {
    assert ([a] + ws)[1..] == ws;
  }

  /** The two sentences of the sample: three words and one run of terminators each. */
  lemma SampleSentence(x: string)
    requires x == "The cat sat." || x == "The dog ran."
    ensures Runs(x, NotSpace) == 3 && Runs(x, IsTerminator) == 1
  {
    if x == "The cat sat." {
      ThreeWordSentence("The", "cat", "sat");
      assert "The" + [' '] + "cat" + [' '] + ("sat" + ".") == x;
    } else {
      ThreeWordSentence("The", "dog", "ran");
      assert "The" + [' '] + "dog" + [' '] + ("ran" + ".") == x;
    }
  }

  /** Two sentences of three words, each ending in one full stop and joined by a space. */
  lemma TwoSentences(a: string, b: string)
    requires Runs(a, NotSpace) == 3 && Runs(a, IsTerminator) == 1
    requires Runs(b, NotSpace) == 3 && Runs(b, IsTerminator) == 1
    ensures var m := ReadabilityMetrics(a + [' '] + b);
      m.Some? && m.value.wordCount == 6 && m.value.sentenceCount == 3
  {
    RunsSeparated(a, ' ', b, NotSpace);
    RunsSeparated(a, ' ', b, IsTerminator);
    RunsZeroIff(a + [' '] + b, NotSpace);
  }

  /**
   * Trailing punctuation leaves an empty final piece that is counted as a
   * sentence: two sentences of three words give six words and three pieces.
   */
  lemma TrailingTerminatorSample(text: string)
    requires text == "The cat sat. The dog ran."
    ensures var m := ReadabilityMetrics(text);
      m.Some? && m.value.wordCount == 6 && m.value.sentenceCount == 3
  {
    var a := "The cat sat.";
    var b := "The dog ran.";
    SampleSentence(a);
    SampleSentence(b);
    SampleIsTwoSentences(text);
    TwoSentences(a, b);
  }

  lemma SampleIsTwoSentences(text: string)
    requires text == "The cat sat. The dog ran."
    ensures "The cat sat." + [' '] + "The dog ran." == text
  {
  }
}

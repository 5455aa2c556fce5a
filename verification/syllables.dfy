/**
 * The syllable heuristic used by the readability metrics: lower-case the
 * word, count the groups of consecutive vowels (`y` included), take one off
 * for a trailing `e`, and report 1 instead of 0.
 */
module SyllableCounting {
  import opened TextBasics

  /** Membership in the vowel string "aeiouy"; it is applied after lower-casing. */
  predicate IsVowel(c: char) {
    c in "aeiouy"
  }

  /** `word.endswith("e")`. */
  predicate EndsWithE(w: string) {
    |w| > 0 && w[|w| - 1] == 'e'
  }

  function Max(a: int, b: int): int {
    if a < b then b else a
  }

  /** The count before the trailing-`e` correction: the vowel groups of the lowered word. */
  function VowelGroups(word: string): nat {
    Runs(Lower(word), IsVowel)
  }

  /**
   * A lowered word ending in `e` already has a vowel group, so the
   * trailing-`e` correction never drives the count below zero.
   */
  lemma VowelEndingHasGroup(word: string)
    ensures EndsWithE(Lower(word)) ==> VowelGroups(word) >= 1
  {
    var w := Lower(word);
    if EndsWithE(w) {
      assert IsVowel(w[|w| - 1]);
      RunsOfTrailingMember(w, IsVowel);
    }
  }

  /** The specification of `count_syllables`: the corrected vowel-group count, with 0 read as 1. */
  function Syllables(word: string): (n: int)
    ensures 1 <= n <= Max(1, |word|)
    ensures !EndsWithE(Lower(word)) ==> n == Max(1, VowelGroups(word))
    ensures EndsWithE(Lower(word)) ==> n == Max(1, VowelGroups(word) - 1)
  {
    var w := Lower(word);
    var count := VowelGroups(word) - (if EndsWithE(w) then 1 else 0);
    VowelEndingHasGroup(word);
    RunsAtMostLength(w, IsVowel);
    if count == 0 then 1 else count
  }

  /** `count_syllables`: the character-scanning loop of the source. */
  method CountSyllables(word: string) returns (count: int)
    ensures count == Syllables(word)
    ensures 1 <= count <= Max(1, |word|)
  {
    var w := Lower(word);
    count := 0;
    if |w| > 0 && IsVowel(w[0]) {
      count := count + 1;
    }
    if |w| > 0 {
      RunsSnoc(w, 0, IsVowel);
    }
    var i := 1;
    while i < |w|
      invariant 1 <= i
      invariant |w| > 0 ==> i <= |w| && count == Runs(w[..i], IsVowel)
      invariant |w| == 0 ==> count == 0
    {
      if IsVowel(w[i]) && !IsVowel(w[i - 1]) {
        count := count + 1;
      }
      RunsSnoc(w, i, IsVowel);
      i := i + 1;
    }
    assert |w| > 0 ==> w[..i] == w;
    if EndsWithE(w) {
      count := count - 1;
    }
    if count == 0 {
      count := 1;
    }
  }

  /** A word without vowels counts 1: "rhythm" has one group, its `y`. */
  lemma RhythmHasOneSyllable()
    ensures Syllables("rhythm") == 1
  {
    RhythmGroups();
    assert Lower("rhythm") == "rhythm";
  }

  lemma RhythmGroups()
    ensures Runs("rhythm", IsVowel) == 1
  {
    RunsZeroIff("rh", IsVowel);
    RunsZeroIff("thm", IsVowel);
    SingleRun("y", IsVowel);
    RunsAppend("rh", "y", IsVowel);
    assert "rh" + "y" == "rhy";
    RunsAppend("rhy", "thm", IsVowel);
    assert "rhy" + "thm" == "rhythm";
  }

  /** A word whose only vowel group is its final `e` counts 1: the correction reaches 0 and is clamped. */
  lemma TheHasOneSyllable()
    ensures Syllables("the") == 1
  {
    assert Lower("the") == "the";
    RunsZeroIff("th", IsVowel);
    SingleRun("e", IsVowel);
    RunsAppend("th", "e", IsVowel);
    assert "th" + "e" == "the";
  }

  /** The empty word counts 1. */
  lemma EmptyWordHasOneSyllable()
    ensures Syllables("") == 1
  {
  }
}

/**
 * `get_grade_specific_guidelines`: a fixed table from grade label to the
 * four adaptation constraints, with a default for every other string.
 */
module Guidelines {

  datatype Guideline = Guideline(
    sentenceLength: string,
    vocabulary: string,
    complexity: string,
    concepts: string)

  /** The thirteen labels offered by the grade selector, lowest first. */
  const Grades: seq<string> := [
    "Kindergarten", "1st Grade", "2nd Grade", "3rd Grade", "4th Grade", "5th Grade",
    "6th Grade", "7th Grade", "8th Grade", "9th Grade", "10th Grade", "11th Grade", "12th Grade"
  ]

  /** The labels that have an entry of their own. */
  const SpecificGrades: seq<string> := Grades[..6]

  const Default: Guideline := Guideline(
    "Varies widely",
    "Grade\U{2011}appropriate academic vocabulary",
    "Full range of sentence structures",
    "Abstract and complex ideas")

  /** The per-grade entries. */
  const Table: map<string, Guideline> := map[
    "Kindergarten" := Guideline("3\U{2013}5 words", "Basic sight words, CVC words",
      "Simple subject\U{2013}verb sentences", "Concrete, everyday objects and actions"),
    "1st Grade" := Guideline("5\U{2013}8 words", "Common sight words, simple descriptive words",
      "Simple sentences with basic conjunctions", "Familiar experiences, basic cause\U{2013}effect"),
    "2nd Grade" := Guideline("8\U{2013}12 words", "Expanding sight words, simple multisyllable words",
      "Compound sentences with 'and', 'but'", "Simple comparisons, basic sequencing"),
    "3rd Grade" := Guideline("10\U{2013}15 words", "Academic vocabulary with context clues",
      "Complex sentences with dependent clauses", "Abstract ideas with concrete examples"),
    "4th Grade" := Guideline("12\U{2013}18 words", "Subject\U{2011}specific terms, multiple meanings",
      "Varied sentence structures", "Cause\U{2013}effect relationships, basic inference"),
    "5th Grade" := Guideline("15\U{2013}20 words", "Advanced vocabulary, figurative language",
      "Sophisticated sentence variety", "Abstract concepts, critical thinking")
  ]

  /** `guidelines.get(grade, default)`. */
  function Lookup(grade: string): Guideline {
    if grade in Table then Table[grade] else Default
  }

  /** The table has exactly the six lowest grades as keys. */
  lemma TableKeys()
    ensures Table.Keys == set g | g in SpecificGrades
  {
    assert SpecificGrades == ["Kindergarten", "1st Grade", "2nd Grade", "3rd Grade", "4th Grade", "5th Grade"];
  }

  /** Every lookup yields four non-empty fields. */
  lemma LookupWellFormed(grade: string)
    ensures var g := Lookup(grade);
      g.sentenceLength != [] && g.vocabulary != [] && g.complexity != [] && g.concepts != []
  {
  }

  /** The default is returned exactly for the labels without an entry of their own. */
  lemma LookupDefaultIff(grade: string)
    ensures Lookup(grade) == Default <==> grade !in SpecificGrades
    ensures Lookup(grade).sentenceLength == "Varies widely" <==> grade !in SpecificGrades
  {
    TableKeys();
  }

  /** Sixth grade and above share the default guideline. */
  lemma UpperGradesUseDefault(i: int)
    requires 6 <= i < |Grades|
    ensures Lookup(Grades[i]) == Default
  {
    LookupDefaultIff(Grades[i]);
  }

  /** The six specific entries are pairwise different. */
  lemma SpecificEntriesDistinct(i: int, j: int)
    requires 0 <= i < j < |SpecificGrades|
    ensures Lookup(SpecificGrades[i]) != Lookup(SpecificGrades[j])
  {
    SentenceLengthByIndex(i);
    SentenceLengthByIndex(j);
  }

  /** The sentence-length field of the k-th specific entry. */
  lemma SentenceLengthByIndex(k: int)
    requires 0 <= k < |SpecificGrades|
    ensures Lookup(SpecificGrades[k]).sentenceLength
         == ["3\U{2013}5", "5\U{2013}8", "8\U{2013}12", "10\U{2013}15", "12\U{2013}18", "15\U{2013}20"][k] + " words"
  {
    assert SpecificGrades == ["Kindergarten", "1st Grade", "2nd Grade", "3rd Grade", "4th Grade", "5th Grade"];
  }
}

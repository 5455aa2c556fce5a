/**
 * The pure string templates of the adaptation pipeline: the system prompt,
 * the chat requests sent to the provider, the 100-character history
 * previews, the newest-first history view and the export package.
 */
module Templates {
  import opened Wrappers
  import opened Guidelines

  // ---------------------------------------------------------------------
  // Multi-line templates
  // ---------------------------------------------------------------------

  /** A multi-line template: its lines joined by newlines. */
  function JoinLines(ls: seq<string>): string
    decreases |ls|
  {
    if |ls| == 0 then ""
    else if |ls| == 1 then ls[0]
    else ls[0] + "\n" + JoinLines(ls[1..])
  }

  /** Where line k of a template starts in the joined text. */
  function LineOffset(ls: seq<string>, k: nat): nat
    requires k < |ls|
    decreases k
  {
    if k == 0 then 0 else |ls[0]| + 1 + LineOffset(ls[1..], k - 1)
  }

  /** t occurs in s starting at position o. */
  predicate OccursAt(s: string, t: string, o: int) {
    0 <= o && o + |t| <= |s| && s[o..o + |t|] == t
  }

  /** t occurs somewhere in s. */
  ghost predicate Contains(s: string, t: string) {
    exists o :: OccursAt(s, t, o)
  }

  /** The parts occur in s at the offsets os, each one ending before the next begins. */
  predicate PlacedAt(s: string, parts: seq<string>, os: seq<int>) {
    |os| == |parts| &&
    (forall i :: 0 <= i < |parts| ==> OccursAt(s, parts[i], os[i])) &&
    (forall i :: 0 <= i < |parts| - 1 ==> os[i] + |parts[i]| < os[i + 1])
  }

  /** The parts occur in s in this order, without overlapping. */
  ghost predicate OccurInOrder(s: string, parts: seq<string>) {
    exists os :: PlacedAt(s, parts, os)
  }

  /** Every line occurs verbatim in the joined text, at its offset. */
  lemma {:induction false} JoinLinesAt(ls: seq<string>, k: nat)
    requires k < |ls|
    ensures OccursAt(JoinLines(ls), ls[k], LineOffset(ls, k))
    decreases k
  {
    if k == 0 {
      if |ls| > 1 {
        assert JoinLines(ls) == ls[0] + ("\n" + JoinLines(ls[1..]));
      }
    } else {
      JoinLinesAt(ls[1..], k - 1);
      var rest := JoinLines(ls[1..]);
      var o := LineOffset(ls[1..], k - 1);
      assert JoinLines(ls) == (ls[0] + "\n") + rest;
      assert JoinLines(ls)[|ls[0]| + 1 + o..|ls[0]| + 1 + o + |ls[k]|] == rest[o..o + |ls[k]|];
    }
  }

  /** Lines appear in order and do not overlap: line j ends before line k starts. */
  lemma {:induction false} LineOffsetsIncrease(ls: seq<string>, j: nat, k: nat)
    requires j < k < |ls|
    ensures LineOffset(ls, j) + |ls[j]| < LineOffset(ls, k)
    decreases j
  {
    if j > 0 {
      LineOffsetsIncrease(ls[1..], j - 1, k - 1);
    }
  }

  /** Joining two non-empty groups of lines puts one newline between them. */
  lemma {:induction false} JoinLinesAppend(a: seq<string>, b: seq<string>)
    requires a != [] && b != []
    ensures JoinLines(a + b) == JoinLines(a) + "\n" + JoinLines(b)
    decreases |a|
  {
    if |a| == 1 {
      assert (a + b)[1..] == b;
    } else {
      assert (a + b)[1..] == a[1..] + b;
      JoinLinesAppend(a[1..], b);
    }
  }

  /** An occurrence of a + b is an occurrence of a followed by one of b. */
  lemma OccursSplit(s: string, a: string, b: string, o: int)
    requires OccursAt(s, a + b, o)
    ensures OccursAt(s, a, o) && OccursAt(s, b, o + |a|)
  {
    var w := s[o..o + |a| + |b|];
    assert w == a + b;
    assert s[o..o + |a|] == w[..|a|];
    assert s[o + |a|..o + |a| + |b|] == w[|a|..];
  }

  /** A field written between a prefix and a suffix on one line occurs verbatim in the joined text. */
  lemma FieldOccurs(ls: seq<string>, k: nat, prefix: string, field: string, suffix: string)
    requires k < |ls| && ls[k] == prefix + field + suffix
    ensures Contains(JoinLines(ls), field)
  {
    JoinLinesAt(ls, k);
    OccursSplit(JoinLines(ls), prefix + field, suffix, LineOffset(ls, k));
    OccursSplit(JoinLines(ls), prefix, field, LineOffset(ls, k));
  }

  /** Lines picked at increasing indices occur in the joined text in that order. */
  lemma LinesInOrder(ls: seq<string>, idx: seq<nat>, parts: seq<string>)
    requires |parts| == |idx|
    requires forall i :: 0 <= i < |idx| ==> idx[i] < |ls| && parts[i] == ls[idx[i]]
    requires forall i :: 0 <= i < |idx| - 1 ==> idx[i] < idx[i + 1]
    ensures OccurInOrder(JoinLines(ls), parts)
  {
    var os := seq(|idx|, i requires 0 <= i < |idx| => LineOffset(ls, idx[i]));
    forall i | 0 <= i < |idx| ensures OccursAt(JoinLines(ls), parts[i], os[i]) {
      JoinLinesAt(ls, idx[i]);
    }
    forall i | 0 <= i < |idx| - 1 ensures os[i] + |parts[i]| < os[i + 1] {
      LineOffsetsIncrease(ls, idx[i], idx[i + 1]);
    }
    assert PlacedAt(JoinLines(ls), parts, os);
  }

  // ---------------------------------------------------------------------
  // The adaptation system prompt
  // ---------------------------------------------------------------------

  /** The accommodation check-boxes of the sidebar. */
  datatype Flags = Flags(
    simplifyVocabulary: bool,
    addDefinitions: bool,
    shortParagraphs: bool,
    visualBreaks: bool)

  function FlagList(f: Flags): seq<bool> {
    [f.simplifyVocabulary, f.addDefinitions, f.shortParagraphs, f.visualBreaks]
  }

  /** The directive each flag adds, in flag order. */
  const Directives: seq<string> := [
    "\U{2022} Use simple vocabulary",
    "\U{2022} Provide definitions in parentheses",
    "\U{2022} Limit paragraphs to 2\U{2013}3 sentences",
    "\U{2022} Insert blank lines between ideas"
  ]

  /** Index of the first accommodation slot among the prompt's lines. */
  const FirstSlot: nat := 16

  const SentenceLengthLabel: string := "  \U{2022} Sentence length: "
  const VocabularyLabel: string := "  \U{2022} Vocabulary: "
  const ComplexityLabel: string := "  \U{2022} Complexity: "
  const ConceptsLabel: string := "  \U{2022} Concepts:   "
  const AudienceLabel: string := "TARGET AUDIENCE: "

  /** A flag's slot: its directive when the flag is set, and an indented blank line otherwise. */
  function Slot(flag: bool, directive: string): string {
    "  " + (if flag then directive else "")
  }

  /** The system prompt up to the ACCOMMODATIONS heading (lines 0-15); the template starts with a newline. */
  function PromptHead(grade: string, g: Guideline): seq<string> {
    [
      "",
      "You are an expert " + "special\U{2011}education content specialist.",
      "",
      AudienceLabel + grade + " students with diverse learning needs:",
      "- Reading difficulties",
      "- Attention challenges",
      "- English\U{2011}language learners",
      "- Cognitive differences",
      "",
      "ADAPTATION RULES",
      SentenceLengthLabel + g.sentenceLength,
      VocabularyLabel + g.vocabulary,
      ComplexityLabel + g.complexity,
      ConceptsLabel + g.concepts,
      "",
      "ACCOMMODATIONS"
    ]
  }

  /** The four flag slots (lines 16-19). */
  function SlotLines(f: Flags): seq<string> {
    [
      Slot(f.simplifyVocabulary, Directives[0]),
      Slot(f.addDefinitions, Directives[1]),
      Slot(f.shortParagraphs, Directives[2]),
      Slot(f.visualBreaks, Directives[3])
    ]
  }

  /** The fixed house rules after the slots (lines 20-33); the template ends with a newline. */
  const PromptTail: seq<string> := [
    "  \U{2022} Clear topic sentences and transitions",
    "  \U{2022} Replace idioms with literal language",
    "  \U{2022} Use active voice",
    "",
    "CONTENT PRESERVATION",
    "  \U{2022} All key ideas must remain intact",
    "  \U{2022} Keep original meaning and purpose",
    "",
    "OUTPUT",
    "  \U{2022} Markdown only (no commentary)",
    "  \U{2022} Bold key terms",
    "  \U{2022} Use bullet lists where helpful",
    "  \U{2022} Short, focused paragraphs",
    ""
  ]

  /** The lines of the system prompt. */
  function SystemPromptLines(grade: string, g: Guideline, f: Flags): seq<string> {
    PromptHead(grade, g) + SlotLines(f) + PromptTail
  }

  function SystemPrompt(grade: string, g: Guideline, f: Flags): string {
    JoinLines(SystemPromptLines(grade, g, f))
  }

  /** Line i of the prompt comes from the head, the slots or the tail. */
  lemma PromptLineAt(grade: string, g: Guideline, f: Flags, i: nat)
    requires i < 34
    ensures |SystemPromptLines(grade, g, f)| == 34
    ensures SystemPromptLines(grade, g, f)[i]
         == if i < FirstSlot then PromptHead(grade, g)[i]
            else if i < FirstSlot + 4 then SlotLines(f)[i - FirstSlot]
            else PromptTail[i - FirstSlot - 4]
  {
    var h, s, t := PromptHead(grade, g), SlotLines(f), PromptTail;
    assert |h| == 16 && |s| == 4 && |t| == 14;
    assert SystemPromptLines(grade, g, f) == (h + s) + t;
  }

  /** The directives have pairwise different lengths (23, 36, 35 and 34 characters). */
  lemma DirectiveLengths()
    ensures |Directives[0]| == 23 && |Directives[1]| == 36
    ensures |Directives[2]| == 35 && |Directives[3]| == 34
  {
  }

  /** The flags never change the number of lines or any line outside the four slots. */
  lemma FlagsKeepOtherLines(grade: string, g: Guideline, f1: Flags, f2: Flags)
    ensures |SystemPromptLines(grade, g, f1)| == |SystemPromptLines(grade, g, f2)| == 34
    ensures forall i :: 0 <= i < 34 && !(FirstSlot <= i < FirstSlot + 4) ==>
      SystemPromptLines(grade, g, f1)[i] == SystemPromptLines(grade, g, f2)[i]
  {
    PromptLineAt(grade, g, f1, 0);
    PromptLineAt(grade, g, f2, 0);
    forall i | 0 <= i < 34 && !(FirstSlot <= i < FirstSlot + 4)
      ensures SystemPromptLines(grade, g, f1)[i] == SystemPromptLines(grade, g, f2)[i]
    {
      PromptLineAt(grade, g, f1, i);
      PromptLineAt(grade, g, f2, i);
    }
  }

  /** Slot k of two prompts differs exactly when flag k does. */
  lemma SlotChangesIffFlag(grade: string, g: Guideline, f1: Flags, f2: Flags, k: nat)
    requires k < 4
    ensures |SystemPromptLines(grade, g, f1)| == |SystemPromptLines(grade, g, f2)| == 34
    ensures SystemPromptLines(grade, g, f1)[FirstSlot + k] == SystemPromptLines(grade, g, f2)[FirstSlot + k]
            <==> FlagList(f1)[k] == FlagList(f2)[k]
  {
    PromptLineAt(grade, g, f1, FirstSlot + k);
    PromptLineAt(grade, g, f2, FirstSlot + k);
    SlotLineAt(f1, k);
    SlotLineAt(f2, k);
  }

  /** Slot k holds directive k when flag k is set and the two-space blank otherwise. */
  lemma SlotLineAt(f: Flags, k: nat)
    requires k < 4
    ensures |SlotLines(f)| == 4
    ensures SlotLines(f)[k] == Slot(FlagList(f)[k], Directives[k])
    ensures |SlotLines(f)[k]| == if FlagList(f)[k] then 2 + |Directives[k]| else 2
    ensures |Directives[k]| > 0
  {
    DirectiveLengths();
  }

  /** A directive line starts with two spaces, and its fifth character is the directive's initial. */
  lemma DirectiveLineShape(k: nat)
    requires k < 4
    ensures var d := "  " + Directives[k];
      |d| >= 25 && d[0] == ' ' && d[4] == ['U', 'P', 'L', 'I'][k]
  {
    DirectiveLengths();
  }

  /** No line before the slots is a directive line. */
  lemma DirectiveNotInHead(grade: string, g: Guideline, k: nat)
    requires k < 4
    ensures ("  " + Directives[k]) !in PromptHead(grade, g)
  {
    var d := "  " + Directives[k];
    var h := PromptHead(grade, g);
    DirectiveLineShape(k);
    HeadShape(grade, g);
    forall i | 0 <= i < |h| ensures h[i] != d {
      if i in {0, 2, 8, 14} {
      } else if i in {10, 11, 12, 13} {
        assert h[i][4] != d[4];
      } else {
        assert h[i][0] != d[0];
      }
    }
  }

  /**
   * First characters (or fifth, for the labelled lines) of the head, which
   * tell its lines from the directive lines. The role line is written as two
   * literals in `PromptHead` so that its first character can be read off here.
   */
  lemma HeadShape(grade: string, g: Guideline)
    ensures var h := PromptHead(grade, g);
      |h| == 16 &&
      h[0] == h[2] == h[8] == h[14] == [] &&
      h[1][0] == 'Y' && h[3][0] == 'T' && h[4][0] == h[5][0] == h[6][0] == h[7][0] == '-' &&
      h[9][0] == h[15][0] == 'A' &&
      h[10][4] == 'S' && h[11][4] == 'V' && h[12][4] == h[13][4] == 'C'
  {
    var h := PromptHead(grade, g);
    assert h[3][0] == AudienceLabel[0];
  }

  /** No line after the slots is a directive line. */
  lemma DirectiveNotInTail(k: nat)
    requires k < 4
    ensures ("  " + Directives[k]) !in PromptTail
  {
    var d := "  " + Directives[k];
    var t := PromptTail;
    DirectiveLineShape(k);
    TailShape();
    forall i | 0 <= i < |t| ensures t[i] != d {
      if i in {2, 11} {
        assert |t[i]| != |d| || d[4] != 'U';
      } else if i in {3, 7, 8, 13} {
        assert |t[i]| < 25;
      } else {
        assert i in {0, 1, 4, 5, 6, 9, 10, 12};
      }
    }
  }

  /** Line lengths and fifth characters of the fixed tail, which tell its lines from the directive lines. */
  lemma TailShape()
    ensures |PromptTail| == 14
    ensures |PromptTail[2]| == 20 && |PromptTail[11]| == 34
    ensures |PromptTail[3]| == |PromptTail[7]| == |PromptTail[13]| == 0 && |PromptTail[8]| == 6
    ensures PromptTail[2][4] == PromptTail[11][4] == 'U'
    ensures PromptTail[0][4] == 'C' && PromptTail[1][4] == 'R' && PromptTail[4][4] == 'E'
    ensures PromptTail[5][4] == 'A' && PromptTail[6][4] == 'K' && PromptTail[9][4] == 'M'
    ensures PromptTail[10][4] == 'B' && PromptTail[12][4] == 'S'
  {
  }

  /** Among the slot lines, directive k's line is present exactly when flag k is set. */
  lemma DirectiveInSlotsIff(f: Flags, k: nat)
    requires k < 4
    ensures ("  " + Directives[k]) in SlotLines(f) <==> FlagList(f)[k]
  {
    var d := "  " + Directives[k];
    SlotLineAt(f, k);
    forall i | 0 <= i < 4 && i != k ensures SlotLines(f)[i] != d {
      SlotLineAt(f, i);
      DirectiveLengths();
    }
  }

  lemma InThreeParts<T>(x: T, a: seq<T>, b: seq<T>, c: seq<T>)
    ensures x in a + b + c <==> x in a || x in b || x in c
  {
    if x in a + b + c {
      var i :| 0 <= i < |a + b + c| && (a + b + c)[i] == x;
      if i >= |a| + |b| {
        assert c[i - |a| - |b|] == x;
      } else if i >= |a| {
        assert b[i - |a|] == x;
      }
    }
    if x in c {
      var j :| 0 <= j < |c| && c[j] == x;
      assert (a + b + c)[|a| + |b| + j] == x;
    }
    if x in b {
      var j :| 0 <= j < |b| && b[j] == x;
      assert (a + b + c)[|a| + j] == x;
    }
  }

  /** A directive line is in the prompt exactly when its flag is set. */
  lemma DirectiveLineIff(grade: string, g: Guideline, f: Flags, k: nat)
    requires k < 4
    ensures ("  " + Directives[k]) in SystemPromptLines(grade, g, f) <==> FlagList(f)[k]
  {
    DirectiveNotInHead(grade, g, k);
    DirectiveNotInTail(k);
    DirectiveInSlotsIff(f, k);
    InThreeParts("  " + Directives[k], PromptHead(grade, g), SlotLines(f), PromptTail);
  }

  /** The grade and the four guideline fields appear verbatim in the system prompt. */
  lemma SystemPromptCarriesGuideline(grade: string, g: Guideline, f: Flags)
    ensures var p := SystemPrompt(grade, g, f);
      Contains(p, grade) && Contains(p, g.sentenceLength) && Contains(p, g.vocabulary) &&
      Contains(p, g.complexity) && Contains(p, g.concepts)
  {
    var ls := SystemPromptLines(grade, g, f);
    FieldOccurs(ls, 3, AudienceLabel, grade, " students with diverse learning needs:");
    FieldOccurs(ls, 10, SentenceLengthLabel, g.sentenceLength, "");
    FieldOccurs(ls, 11, VocabularyLabel, g.vocabulary, "");
    FieldOccurs(ls, 12, ComplexityLabel, g.complexity, "");
    FieldOccurs(ls, 13, ConceptsLabel, g.concepts, "");
  }

  // ---------------------------------------------------------------------
  // Chat requests
  // ---------------------------------------------------------------------

  datatype Role = System | User

  datatype Message = Message(role: Role, content: string)

  /** The parameters of one chat-completion call. */
  datatype ChatRequest = ChatRequest(
    model: string,
    temperature: real,
    messages: seq<Message>,
    maxTokens: Option<nat>)

  /** Both calls are made at this temperature. */
  const FixedTemperature: real := 0.3

  const AdaptMaxTokens: nat := 2000

  function UserPrompt(grade: string, input: string): string {
    "Adapt this text for " + grade + " students:\n\n" + input
  }

  /** The adaptation call: system prompt for the grade's guideline, then the text to adapt. */
  function AdaptationRequest(grade: string, model: string, f: Flags, input: string): ChatRequest {
    ChatRequest(model, FixedTemperature,
      [Message(System, SystemPrompt(grade, Lookup(grade), f)), Message(User, UserPrompt(grade, input))],
      Some(AdaptMaxTokens))
  }

  const QuestionSystemPrompt: string := "You write clear, level\U{2011}appropriate comprehension questions."

  function QuestionPrompt(grade: string): string {
    "\nCreate 6 comprehension questions for " + grade + " students:\n\n"
    + "1\U{2013}2 literal (who/what/where/when)\n"
    + "3\U{2013}4 inferential (why/how)\n"
    + "5 vocabulary in context\n"
    + "6 personal connection\n"
  }

  /** The question call: no token limit, and the adapted text after a `TEXT:` marker. */
  function QuestionRequest(grade: string, model: string, adapted: string): ChatRequest {
    ChatRequest(model, FixedTemperature,
      [Message(System, QuestionSystemPrompt),
       Message(User, QuestionPrompt(grade) + "\n\nTEXT:\n" + adapted)],
      None)
  }

  /** The two kinds of call the app makes, with what each depends on. */
  datatype Call =
    | AdaptCall(grade: string, model: string, flags: Flags, input: string)
    | QuestionCall(grade: string, model: string, adapted: string)

  /** The request a call sends to the provider. */
  function Payload(c: Call): ChatRequest {
    match c
    case AdaptCall(grade, model, f, input) => AdaptationRequest(grade, model, f, input)
    case QuestionCall(grade, model, adapted) => QuestionRequest(grade, model, adapted)
  }

  /**
   * The adaptation request: a system message then a user message, at the
   * fixed temperature, for the chosen model, with a 2000-token limit; the
   * user message ends with the input text.
   */
  lemma AdaptationRequestShape(grade: string, model: string, f: Flags, input: string)
    ensures var r := AdaptationRequest(grade, model, f, input);
      r.temperature == 0.3 && r.model == model && r.maxTokens == Some(2000) &&
      |r.messages| == 2 && r.messages[0].role == System && r.messages[1].role == User &&
      r.messages[0].content == SystemPrompt(grade, Lookup(grade), f) &&
      OccursAt(r.messages[1].content, input, |r.messages[1].content| - |input|)
  {
    var u := UserPrompt(grade, input);
    assert u[|u| - |input|..] == input;
  }

  /**
   * The question request: a system message then a user message, at the same
   * fixed temperature, for the chosen model, with no token limit; the user
   * message ends with the adapted text.
   */
  lemma QuestionRequestShape(grade: string, model: string, adapted: string)
    ensures var r := QuestionRequest(grade, model, adapted);
      r.temperature == 0.3 && r.model == model && r.maxTokens.None? &&
      |r.messages| == 2 && r.messages[0].role == System && r.messages[1].role == User &&
      r.messages[0].content == QuestionSystemPrompt &&
      OccursAt(r.messages[1].content, adapted, |r.messages[1].content| - |adapted|)
  {
    var u := QuestionPrompt(grade) + "\n\nTEXT:\n" + adapted;
    assert u[|u| - |adapted|..] == adapted;
  }

  // ---------------------------------------------------------------------
  // History
  // ---------------------------------------------------------------------

  const PreviewLimit: nat := 100

  /** A history preview: the text itself up to 100 characters, else its first 100 and "...". */
  function Preview(s: string): string {
    if |s| > PreviewLimit then s[..PreviewLimit] + "..." else s
  }

  function Min(a: int, b: int): int {
    if a < b then a else b
  }

  /** A preview keeps the first 100 characters, is at most 103 long, and is the text itself when short. */
  lemma PreviewShape(s: string)
    ensures |s| <= 100 ==> Preview(s) == s
    ensures |s| > 100 ==> |Preview(s)| == 103 && Preview(s)[100..] == "..."
    ensures |Preview(s)| <= 103
    ensures Preview(s)[..Min(|s|, 100)] == s[..Min(|s|, 100)]
  {
  }

  /** Previewing a preview changes nothing. */
  lemma PreviewIdempotent(s: string)
    ensures Preview(Preview(s)) == Preview(s)
  {
    if |s| > PreviewLimit {
      assert (s[..PreviewLimit] + "...")[..PreviewLimit] == s[..PreviewLimit];
    }
  }

  /** One history record: opaque timestamp, grade and the two previews. */
  datatype HistoryEntry = HistoryEntry(timestamp: string, grade: string, original: string, adapted: string)

  function MakeEntry(timestamp: string, grade: string, input: string, adapted: string): HistoryEntry {
    HistoryEntry(timestamp, grade, Preview(input), Preview(adapted))
  }

  /** Both previews of an entry fit in 103 characters. */
  predicate PreviewsBounded(e: HistoryEntry) {
    |e.original| <= 103 && |e.adapted| <= 103
  }

  /** s with its order reversed: the last element first. */
  function Reversed<T>(s: seq<T>): (r: seq<T>)
    ensures |r| == |s|
    ensures forall i :: 0 <= i < |s| ==> r[i] == s[|s| - 1 - i]
    decreases |s|
  {
    if s == [] then [] else [s[|s| - 1]] + Reversed(s[..|s| - 1])
  }

  /** `reversed(history[-10:])`. */
  function RecentHistory<T>(h: seq<T>): seq<T> {
    Reversed(h[|h| - Min(10, |h|)..])
  }

  /** The history view shows at most ten entries, newest first, and every one of the last ten. */
  lemma RecentHistoryNewestFirst<T>(h: seq<T>)
    ensures |RecentHistory(h)| == Min(10, |h|)
    ensures forall i :: 0 <= i < |RecentHistory(h)| ==> RecentHistory(h)[i] == h[|h| - 1 - i]
  {
  }

  // ---------------------------------------------------------------------
  // Export package
  // ---------------------------------------------------------------------

  /** The blocks of the combined package; the questions section is blanked when there are none. */
  function PackageBlocks(generated: string, grade: string, model: string,
                         input: string, adapted: string, questions: string): seq<string>
  {
    var has := questions != "";
    [
      "GENERATED: " + generated,
      "GRADE: " + grade,
      "MODEL: " + model,
      "",
      "ORIGINAL",
      "--------",
      input,
      "",
      "ADAPTED",
      "-------",
      adapted,
      "",
      if has then "QUESTIONS" else "",
      if has then "---------" else "",
      if has then questions else "",
      ""
    ]
  }

  function Package(generated: string, grade: string, model: string,
                   input: string, adapted: string, questions: string): string
  {
    JoinLines(PackageBlocks(generated, grade, model, input, adapted, questions))
  }

  /**
   * The package holds the ORIGINAL header, the input, the ADAPTED header and
   * the adapted text in that order, each verbatim, followed by the QUESTIONS
   * header and the questions when there are any.
   */
  lemma PackageSectionOrder(generated: string, grade: string, model: string,
                            input: string, adapted: string, questions: string)
    ensures var p := Package(generated, grade, model, input, adapted, questions);
      OccurInOrder(p, ["ORIGINAL", input, "ADAPTED", adapted]) &&
      (questions != "" ==> OccurInOrder(p, ["ORIGINAL", input, "ADAPTED", adapted, "QUESTIONS", questions]))
  {
    var ls := PackageBlocks(generated, grade, model, input, adapted, questions);
    LinesInOrder(ls, [4, 6, 8, 10], ["ORIGINAL", input, "ADAPTED", adapted]);
    if questions != "" {
      LinesInOrder(ls, [4, 6, 8, 10, 12, 14], ["ORIGINAL", input, "ADAPTED", adapted, "QUESTIONS", questions]);
    }
  }

  /** Without questions, nothing but five newlines follows the adapted text. */
  lemma PackageWithoutQuestions(generated: string, grade: string, model: string,
                                input: string, adapted: string)
    ensures var p := Package(generated, grade, model, input, adapted, "");
      |p| >= 5 + |adapted| &&
      p[|p| - 5..] == "\n\n\n\n\n" &&
      OccursAt(p, adapted, |p| - 5 - |adapted|)
  {
    var ls := PackageBlocks(generated, grade, model, input, adapted, "");
    var front := ls[..10];
    var blanks := ["", "", "", "", ""];
    assert ls == front + [adapted] + blanks;
    JoinLinesAppend(front + [adapted], blanks);
    JoinLinesAppend(front, [adapted]);
    assert JoinLines(blanks) == "\n\n\n\n";
    var pre := JoinLines(front) + "\n";
    var p := pre + adapted + "\n\n\n\n\n";
    assert p == JoinLines(ls);
    assert p[|p| - 5..] == "\n\n\n\n\n";
    assert p[|pre|..|pre| + |adapted|] == adapted;
  }
}

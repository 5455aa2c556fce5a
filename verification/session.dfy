/**
 * The per-session state of the app (adapted text, questions, history) and
 * the two buttons that change it. The language-model provider is not
 * modelled: its answers to the adaptation call and to the question call are
 * parameters (`adaptReply`, `questionReply`; the request each call sends is
 * `Payload`), and so is the clock (`timestamp`).
 */
module Session {
  import opened Wrappers
  import opened TextBasics
  import opened Guidelines
  import opened Templates

  /** What the provider answers to one request: the message content, or the exception it raised. */
  datatype Reply = Completed(content: string) | Failed(error: string)

  /** What the Adapt button reports: nothing (blank input), the success banner, or an error banner. */
  datatype Outcome = NotRun | Adapted | Error(message: string)

  /** A snapshot of the three session keys. */
  datatype State = State(adaptedText: string, questions: string, history: seq<HistoryEntry>)

  /** The result of one press of Adapt: the new state, the requests sent in order, and the banner. */
  datatype Step = Step(state: State, calls: seq<Call>, outcome: Outcome)

  const Initial: State := State("", "", [])

  /** Every history entry carries previews of at most 103 characters. */
  predicate HistoryBounded(h: seq<HistoryEntry>) {
    forall i :: 0 <= i < |h| ==> PreviewsBounded(h[i])
  }

  lemma MakeEntryBounded(timestamp: string, grade: string, input: string, adapted: string)
    ensures PreviewsBounded(MakeEntry(timestamp, grade, input, adapted))
  {
    PreviewShape(input);
    PreviewShape(adapted);
  }

  function ErrorMessage(e: string): string {
    "Error: " + e
  }

  /**
   * The question stage, after the adaptation has been committed to s: the
   * question request about the new adapted text is sent, and on success its
   * stripped reply replaces the questions; on failure the error is reported
   * and the questions stay as they were.
   */
  function QuestionStage(s: State, reply: Reply): (r: (State, Outcome))
    ensures r.0.adaptedText == s.adaptedText && r.0.history == s.history
    ensures reply.Completed? ==> r.0.questions == Strip(reply.content) && r.1 == Adapted
    ensures reply.Failed? ==> r.0.questions == s.questions && r.1 == Error(ErrorMessage(reply.error))
  {
    match reply
    case Failed(e) => (s, Error(ErrorMessage(e)))
    case Completed(qs) => (s.(questions := Strip(qs)), Adapted)
  }

  /** The adaptation stage: the stripped reply becomes the adapted text and one history entry is appended. */
  function Commit(s: State, input: string, grade: string, timestamp: string, content: string): (r: State)
    ensures r.adaptedText == Strip(content) && r.questions == s.questions
    ensures r.history == s.history + [MakeEntry(timestamp, grade, input, Strip(content))]
    ensures |r.history| == |s.history| + 1 && r.history[..|s.history|] == s.history
    ensures r.history[|s.history|].original == Preview(input)
    ensures HistoryBounded(s.history) ==> HistoryBounded(r.history)
  {
    var adapted := Strip(content);
    MakeEntryBounded(timestamp, grade, input, adapted);
    var r := State(adapted, s.questions, s.history + [MakeEntry(timestamp, grade, input, adapted)]);
    assert r.history[..|s.history|] == s.history;
    r
  }

  /**
   * One press of Adapt. Blank input does nothing. Otherwise the adaptation
   * request is sent; on success the stripped reply becomes the adapted text
   * and a history entry is appended, and then, when questions are wanted, the
   * question request is sent about the new adapted text. A failure of either
   * call is reported as an error, but a failed question call does not undo
   * the adapted text and history entry already written.
   */
  function AdaptStep(s: State, input: string, grade: string, model: string, f: Flags,
                     wantQuestions: bool, timestamp: string,
                     adaptReply: Reply, questionReply: Reply): (r: Step)
    // blank input: no call, no change
    ensures r.calls == [] <==> IsBlank(input)
    ensures IsBlank(input) ==> r.state == s && r.outcome == NotRun
    // the first call is always the adaptation, and at most two are made
    ensures |r.calls| <= 2
    ensures r.calls != [] ==> r.calls[0] == AdaptCall(grade, model, f, input)
    // a failed adaptation changes nothing
    ensures r.calls != [] && adaptReply.Failed? ==>
      r.state == s && |r.calls| == 1 && r.outcome == Error(ErrorMessage(adaptReply.error))
    // a successful adaptation writes the stripped reply and one history entry
    ensures r.calls != [] && adaptReply.Completed? ==>
      r.state.adaptedText == Strip(adaptReply.content) &&
      r.state.history == s.history + [MakeEntry(timestamp, grade, input, r.state.adaptedText)]
    // the question call follows exactly a successful adaptation when questions are wanted,
    // and it is about the new adapted text
    ensures |r.calls| == 2 <==> (r.calls != [] && adaptReply.Completed? && wantQuestions)
    ensures |r.calls| == 2 ==> r.calls[1] == QuestionCall(grade, model, r.state.adaptedText)
    // without the question call, a successful adaptation reports success
    ensures r.calls != [] && adaptReply.Completed? && !wantQuestions ==> r.outcome == Adapted
    // the questions change only on a successful question call; otherwise the previous ones remain
    ensures |r.calls| == 2 && questionReply.Completed? ==>
      r.state.questions == Strip(questionReply.content) && r.outcome == Adapted
    ensures !(|r.calls| == 2 && questionReply.Completed?) ==> r.state.questions == s.questions
    ensures |r.calls| == 2 && questionReply.Failed? ==>
      r.outcome == Error(ErrorMessage(questionReply.error))
    // the history only grows, by at most one entry, and keeps its bound
    ensures |s.history| <= |r.state.history| <= |s.history| + 1
    ensures r.state.history[..|s.history|] == s.history
    ensures HistoryBounded(s.history) ==> HistoryBounded(r.state.history)
  {
    if Strip(input) == [] then
      Step(s, [], NotRun)
    else
      var a := AdaptCall(grade, model, f, input);
      match adaptReply
      case Failed(e) => Step(s, [a], Error(ErrorMessage(e)))
      case Completed(content) =>
        var s1 := Commit(s, input, grade, timestamp, content);
        if !wantQuestions then
          Step(s1, [a], Adapted)
        else
          var q := QuestionCall(grade, model, s1.adaptedText);
          var (s2, outcome) := QuestionStage(s1, questionReply);
          Step(s2, [a, q], outcome)
  }

  /**
   * The requests Adapt sends: the first carries the system prompt for the
   * grade's guideline and the flags, and the question request carries the
   * adapted text that Adapt has just stored.
   */
  lemma RequestsSent(s: State, input: string, grade: string, model: string, f: Flags,
                     wantQuestions: bool, timestamp: string,
                     adaptReply: Reply, questionReply: Reply)
    ensures var r := AdaptStep(s, input, grade, model, f, wantQuestions, timestamp, adaptReply, questionReply);
      (r.calls != [] ==> Payload(r.calls[0]).messages[0].content == SystemPrompt(grade, Lookup(grade), f)) &&
      (|r.calls| == 2 ==> Payload(r.calls[1]) == QuestionRequest(grade, model, r.state.adaptedText))
  {
    AdaptationRequestShape(grade, model, f, input);
  }

  /** The Clear button: both outputs are emptied and the history is kept. */
  function ClearStep(s: State): (r: State)
    ensures r.adaptedText == [] && r.questions == [] && r.history == s.history
  {
    State("", "", s.history)
  }

  /** Clear after a successful Adapt empties both outputs but keeps the entry that Adapt appended. */
  lemma ClearAfterAdaptKeepsHistory(s: State, input: string, grade: string, model: string, f: Flags,
                                    wantQuestions: bool, timestamp: string,
                     adaptReply: Reply, questionReply: Reply)
    requires !IsBlank(input)
    requires adaptReply.Completed?
    ensures var r := AdaptStep(s, input, grade, model, f, wantQuestions, timestamp, adaptReply, questionReply);
      var c := ClearStep(r.state);
      c.adaptedText == [] && c.questions == [] &&
      |c.history| == |s.history| + 1 &&
      c.history[|s.history|].original == Preview(input)
  {
  }

  /** The session keys, held in one object whose fields the buttons update in place. */
  class AppState {
    var adaptedText: string
    var questions: string
    var history: seq<HistoryEntry>

    function Snapshot(): State
      reads this
    {
      State(adaptedText, questions, history)
    }

    ghost predicate Valid()
      reads this
    {
      HistoryBounded(history)
    }

    /** `setdefault` of the three keys on the first run of a session. */
    constructor ()
      ensures Snapshot() == Initial
      ensures Valid()
    {
      adaptedText := "";
      questions := "";
      history := [];
    }

    /** The Clear button. */
    method Clear()
      modifies this
      ensures Snapshot() == ClearStep(old(Snapshot()))
      ensures Valid() == old(Valid())
    {
      adaptedText := "";
      questions := "";
    }

    /** Writing a successful adaptation: the stripped reply, then its history entry. */
    method CommitAdaptation(input: string, grade: string, timestamp: string, content: string)
      modifies this
      ensures Snapshot() == Commit(old(Snapshot()), input, grade, timestamp, content)
    {
      adaptedText := Strip(content);
      history := history + [MakeEntry(timestamp, grade, input, adaptedText)];
    }

    /** The Adapt button; `questionReply` is used only when the question call is made. */
    method Adapt(input: string, grade: string, model: string, f: Flags,
                 wantQuestions: bool, timestamp: string,
                     adaptReply: Reply, questionReply: Reply)
      returns (calls: seq<Call>, outcome: Outcome)
      modifies this
      ensures var r := AdaptStep(old(Snapshot()), input, grade, model, f, wantQuestions, timestamp, adaptReply, questionReply);
        Snapshot() == r.state && calls == r.calls && outcome == r.outcome
      ensures old(Valid()) ==> Valid()
    {
      calls := [];
      outcome := NotRun;
      if Strip(input) == [] {
        return;
      }
      var a := AdaptCall(grade, model, f, input);
      calls := [a];
      if adaptReply.Failed? {
        outcome := Error(ErrorMessage(adaptReply.error));
        return;
      }
      CommitAdaptation(input, grade, timestamp, adaptReply.content);
      if wantQuestions {
        var q := QuestionCall(grade, model, adaptedText);
        calls := [a, q];
        if questionReply.Failed? {
          outcome := Error(ErrorMessage(questionReply.error));
          return;
        }
        questions := Strip(questionReply.content);
      }
      outcome := Adapted;
    }
  }
}

# Text Differentiator — a Dafny model of its adaptation core

Text Differentiator is a single-page Streamlit app (`app.py`). A teacher pastes a text, picks a
target grade and some accessibility options, and the app asks a chat-completion model to rewrite
the text for that grade. Optionally it also asks for six comprehension questions. It keeps a
per-session history of adaptations, offers the results for download as plain text, and compares
the readability of the original and adapted texts.

This project models the parts of `app.py` that carry decisions:

- **Text statistics** (`text_basics.dfy`, `syllables.dfy`, `readability.dfy`):
  - `count_syllables` is modelled as a specification function `Syllables` and as the source's
    character-scanning loop `CountSyllables`, which is proved equal to it.
  - The integer part of `calculate_readability_metrics` is modelled: the word count, the
    sentence count and the syllable total, plus the Flesch formula over exact reals.
  - Three things are defined once, in `TextBasics`, as "maximal runs of characters satisfying a
    predicate" (`Runs`): the vowel groups, the words of `str.split()` and the pieces of
    `re.split(r"[.!?]+")`. Each is tied to `Runs` by a lemma.
- **Grade guidelines** (`guidelines.dfy`): `get_grade_specific_guidelines` is a table with six
  entries of its own and a default for every other string.
- **Templates** (`templates.dfy`):
  - the adaptation system prompt, as its 34 lines joined by newlines;
  - the two chat requests;
  - the 100-character history preview;
  - the newest-first view of the last ten history entries;
  - the export package.
- **Session state** (`session.dfy`):
  - the three session keys `adapted_text`, `questions` and `history`, as the fields of a class
    `AppState`;
  - the Clear and Adapt buttons, as methods that update those fields in place;
  - `AdaptStep` and `ClearStep`, which specify those methods over a value snapshot `State`.
  - The chat-completion provider is not modelled. Its answers to the adaptation call and to the
    question call are the parameters `adaptReply` and `questionReply`, which are either
    `Completed(content)` or `Failed(error)`. `Templates.Payload` is the request each call sends.
  - The clock is the `timestamp` parameter.

Assumptions about Python's string functions:

- Characters are Dafny `char`s.
- `str.lower()` is taken to lower-case ASCII letters only.
- Whitespace is the ASCII set that Python's `str.split()` and `str.strip()` use: space,
  `\t`–`\r` and `\x1c`–`\x1f`.

Four behaviours of the code that a reader might not expect are modelled as written:

- **Temperature.** Both calls use temperature 0.3 (app.py:407, app.py:444).
- **Unset accommodation flags.** An unset flag leaves its slot line in the prompt as two spaces
  (app.py:381-384).
- **Sentence count.** A trailing full stop adds an empty final piece that is counted as a
  sentence, so "The cat sat. The dog ran." gives a sentence count of 3
  (`Readability.TrailingTerminatorSample`).
- **Failed question call.** The failure is handled by the same handler as a failed adaptation
  (app.py:449-450). It shows an "Error: …" banner and leaves `questions` unchanged. The adapted
  text and the history entry that were already written stay.

## Model

| member | source | states |
|---|---|---|
| SyllableCounting.Syllables | app.py:168-179 | the count is between 1 and max(1, length of the word); it is the number of vowel groups of the lowered word (y counts as a vowel), less one when the word ends in `e`, with 0 raised to 1 |
| SyllableCounting.CountSyllables | app.py:168-179 | the index loop (first character, then each vowel that follows a non-vowel), the trailing-`e` correction and `count or 1` compute exactly `Syllables(word)` |
| SyllableCounting.VowelEndingHasGroup | app.py:177-179 | a lowered word that ends in `e` has at least one vowel group, so the correction never takes the count below 0 and `or 1` is enough to make it at least 1 |
| SyllableCounting.RhythmHasOneSyllable | app.py:172-179 | a word whose only vowel is `y` ("rhythm") counts 1 |
| SyllableCounting.TheHasOneSyllable | app.py:177-179 | "the" counts 1: its only group is the final `e`, the correction gives 0 and the clamp gives 1 |
| SyllableCounting.EmptyWordHasOneSyllable | app.py:172-179 | the empty word counts 1 |
| TextBasics.Lower | app.py:169 | lower-casing keeps the length and maps each ASCII capital to its small letter, leaving every other character alone |
| TextBasics.Words | app.py:152 | `text.split()` yields non-empty words without whitespace; which words they are is fixed by `SingleWord`, `WordsSeparated` and `WordsOfJoin` |
| TextBasics.WordsCount | app.py:152 | the number of words is the number of maximal runs of non-whitespace characters |
| TextBasics.WordsSeparated | app.py:152 | splitting text joined at a whitespace character gives the words of each side, concatenated |
| TextBasics.WordsEmptyIff | app.py:152 | the split is empty exactly when the text is blank |
| TextBasics.SingleWord | app.py:152 | a non-empty string without whitespace splits into exactly itself |
| TextBasics.WordsOfJoin | app.py:152 | splitting non-empty, whitespace-free words joined by single spaces gives back the same words in the same order |
| TextBasics.SentencePieces | app.py:151 | `re.split(r"[.!?]+", text)` always yields at least one piece, and no piece contains `.`, `!` or `?` |
| TextBasics.SentencePiecesCount | app.py:151 | the number of pieces is one more than the number of maximal runs of `.`/`!`/`?` |
| TextBasics.RunsAtMostLength | app.py:174-176 | a string never has more vowel groups (runs) than characters |
| TextBasics.RunsZeroIff | app.py:151-152 | there are no runs exactly when no character qualifies |
| TextBasics.RunsAppend | app.py:151-152 | the runs of a concatenation are the runs of both parts, less one when a run crosses the seam |
| TextBasics.Strip | app.py:361 | `strip()` is no longer than its input, starts and ends with non-whitespace when non-empty, and is empty exactly when the input is blank |
| TextBasics.StripIsTrim | app.py:411 | stripping removes the leading whitespace and then the trailing whitespace, leaving the middle slice of the text |
| TextBasics.TrimLeft | app.py:411 | trimming the left end leaves a suffix whose first character is not whitespace, after a blank prefix |
| TextBasics.TrimRight | app.py:411 | trimming the right end leaves a prefix whose last character is not whitespace, before a blank suffix |
| Readability.ReadabilityMetrics | app.py:149-165 | there are no metrics exactly when the text is blank; otherwise the word count is the number of non-whitespace runs (at least 1), the sentence count is one more than the number of terminator runs, and the syllable total is at least the word count |
| Readability.TotalSyllablesBounds | app.py:153 | the syllable total of non-empty words is at least the number of words and at most their total length |
| Readability.ReadingEaseBelowCeiling | app.py:155-158 | whenever metrics are produced both divisions have non-zero divisors, and the unrounded Flesch score is below 206.835 − 84.6 |
| Readability.TrailingTerminatorSample | app.py:151-161 | the text "The cat sat. The dog ran." has 6 words and 3 sentence pieces |
| Readability.SampleWords | app.py:152-153 | the sample text splits into "The", "cat", "sat.", "The", "dog", "ran.", punctuation attached, which are the words whose syllables are counted |
| Guidelines.TableKeys | app.py:183-220 | the table's keys are exactly Kindergarten to 5th Grade |
| Guidelines.LookupWellFormed | app.py:182-227 | every lookup returns four non-empty fields |
| Guidelines.LookupDefaultIff | app.py:182-227 | the default, whose sentence length is "Varies widely", is returned exactly for labels other than Kindergarten to 5th Grade |
| Guidelines.UpperGradesUseDefault | app.py:221-227 | 6th Grade to 12th Grade get the default |
| Guidelines.SentenceLengthByIndex | app.py:184-219 | the sentence-length field of each of the six entries, in grade order |
| Guidelines.SpecificEntriesDistinct | app.py:183-220 | the six grades get pairwise different guidelines |
| Templates.SystemPromptCarriesGuideline | app.py:365-378 | the prompt contains the grade and the four guideline fields verbatim |
| Templates.DirectiveLineIff | app.py:380-384 | each accommodation directive's line is in the prompt exactly when its flag is set |
| Templates.FlagsKeepOtherLines | app.py:365-398 | the prompt has 34 lines whatever the flags, and every line outside the four slots is the same for all flags |
| Templates.SlotChangesIffFlag | app.py:381-384 | slot k of two prompts differs exactly when flag k differs |
| Templates.SlotLineAt | app.py:381-384 | slot k holds directive k when the flag is set and two spaces otherwise |
| Templates.DirectiveNotInHead | app.py:365-380 | no line before the slots is a directive line |
| Templates.DirectiveNotInTail | app.py:385-398 | no line after the slots is a directive line |
| Templates.AdaptationRequestShape | app.py:400-410 | the adaptation request is a system message and then a user message, at temperature 0.3, for the chosen model, with a 2000-token limit; the system message is the prompt for the grade's guideline and the flags, and the user message ends with the input text |
| Templates.QuestionRequestShape | app.py:429-444 | the question request is a system message and then a user message, at temperature 0.3, for the chosen model, with no token limit; the system message is the fixed question-writer instruction, and the user message ends with the adapted text |
| Templates.PreviewShape | app.py:418-423 | a preview is the text itself up to 100 characters, and otherwise its first 100 characters plus "...", 103 long; it always begins with the text's first min(100, length) characters |
| Templates.PreviewIdempotent | app.py:418 | previewing a preview changes nothing |
| Templates.Reversed | app.py:580 | reversing keeps the length and puts element i at position length−1−i |
| Templates.RecentHistoryNewestFirst | app.py:580 | the history view shows min(10, length) entries, and entry i is the i-th newest |
| Templates.PackageSectionOrder | app.py:500-515 | the package holds the ORIGINAL header, the input, the ADAPTED header and the adapted text, verbatim and in that order, followed by the QUESTIONS header and the questions when there are questions |
| Templates.PackageWithoutQuestions | app.py:510-515 | without questions, nothing but five newlines follows the adapted text |
| Session.AdaptStep | app.py:361-450 | blank input makes no call and changes nothing; otherwise the first call is the adaptation call; a failed adaptation changes nothing and reports "Error: …"; a successful one stores the stripped reply and appends one entry; the question call, about the new adapted text, is made exactly when that adaptation succeeded and questions are wanted, and without it a successful adaptation reports success; questions change only when that call succeeds; a failed question call reports its error but keeps the adapted text and the new entry; the history only grows, by at most one entry, and keeps its preview bound |
| Session.Commit | app.py:411-425 | a successful adaptation stores the stripped reply, leaves the questions alone and appends exactly one entry, whose original preview is the preview of the input, keeping earlier entries and the preview bound |
| Session.QuestionStage | app.py:428-450 | a successful question call replaces the questions with its stripped reply and reports success; a failed one keeps the questions and reports "Error: " and the error; neither touches the adapted text or the history |
| Session.RequestsSent | app.py:400-444 | the adaptation request that Adapt sends carries the system prompt built from the grade's guideline and the flags, and the question request carries the adapted text that Adapt has just stored |
| Session.ClearStep | app.py:356-359 | Clear empties the adapted text and the questions and keeps the history |
| Session.ClearAfterAdaptKeepsHistory | app.py:356-425 | Clear after a successful Adapt leaves one more history entry than before, whose original preview is the input's preview |
| Session.MakeEntryBounded | app.py:414-425 | both previews of a new history entry are at most 103 characters |
| Session.AppState.constructor | app.py:287-289 | a session starts with empty adapted text, empty questions and an empty history |
| Session.AppState.Clear | app.py:356-359 | the Clear button changes the fields exactly as `ClearStep` says |
| Session.AppState.CommitAdaptation | app.py:411-425 | the two in-place writes after a successful adaptation change the fields exactly as `Commit` says |
| Session.AppState.Adapt | app.py:361-450 | the Adapt button changes the fields, makes the calls and reports the outcome exactly as `AdaptStep` says, and keeps every history preview within 103 characters |

## Left out

- Streamlit page setup, CSS, widgets, tabs, HTML rendering and `st.rerun` are UI and are not modelled.
- The OpenAI client, the environment-variable lookup and the HTTP transport are not modelled. The provider's answers are the `adaptReply` and `questionReply` parameters. For one press of Adapt these cover every provider, because the requests are fixed by the inputs. A reply whose content is `None` is not modelled.
- `datetime.now()` and its formatting are replaced by opaque `timestamp` and `generated` string parameters.
- Readability.ReadingEase: the score and the two averages are stated over exact reals. Floating-point arithmetic and `round(..., 1)` are not modelled, so the returned `avg_sentence_length` and `reading_ease` values are not modelled either.
- The word-reduction percentage of the analytics tab (app.py:552) is float arithmetic and is not modelled.
- `generate_history_pdf` is a wrapper over ReportLab calls, which are not part of this model.
- The placeholder checkboxes for a vocabulary list and a summary have no effect and are not modelled.
- The single-file downloads and their file names are not modelled. They pass the adapted text or the questions through unchanged.
- Python's Unicode-aware `str.lower`, `str.split` and `str.strip` are modelled for ASCII letters and ASCII whitespace only.
- Session.AppState.Adapt: the provider's two answers are parameters that are fixed before the press, so the model does not capture a provider whose answer to the question call depends on when that call is made.

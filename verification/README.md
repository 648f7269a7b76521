# AI HR assistant: a verified model of the scoring and interview core

AI_HR is a desktop assistant that screens a job candidate in three stages:
1. **Résumé analysis.** It matches a résumé against the requirements of a vacancy. A requirement counts when lemma overlap, word overlap or sentence-embedding similarity finds it.
2. **Spoken interview.** It runs a short interview. Questions come from the vacancy's bank and from a language model, and a streaming Whisper recogniser transcribes the answers.
3. **Final scoring.** It scores the answers. It blends the two scores 40/60 into a total and prints a plain-text report that ends with a hiring recommendation.

This project models that core in Dafny and proves what it promises.

| file | module | models |
|---|---|---|
| `text.dfy` | `Wrappers`, `Text` | Python string helpers: `strip`, `lower`, `split`, `in`, `join`, list filtering |
| `scores.dfy` | `Scores` | scores as tenths of a percent; `round(x, 1)`; the 40/60 blend; how a score prints |
| `domain.dfy` | `Domain` | the vacancy and answer records passed between the stages |
| `vacancy.dfy` | `VacancyParser` | `extract_vacancy` |
| `analyzer.dfy` | `Analyzer` | `normalize_text`, `partial_match`, `semantic_match`, `analyze_resume_vs_vacancy`, `analyze_interview` |
| `questions.dfy` | `QuestionGen` | `normalize_question_text`, `ai_generate_question` |
| `interview.dfy` | `Interview`, `InterviewFacts` | `conduct_interview`, and what its loop guarantees |
| `stt.dfy` | `SpeechToText` | the `SpeechRecognizer` class and its recording loop |
| `report.dfy` | `Report` | `generate_report` and its recommendation |
| `app.dfy` | `App` | the window of `main.py`: `handle_update_log`, `on_stop_clicked`, `start_process`, `finish_process`, `InterviewThread.run` |

Some parts become oracles, supplied as function-typed inputs:
- the NLP models: Natasha's lemmatiser, the SBERT similarity and the sentiment pipeline;
- the chat model;
- Whisper.

Everything else from outside the program is a parameter of the operation that meets it:
- the microphone, the clock and the stop button;
- the moments at which a background transcription thread runs;
- the value `random.choice` draws;
- the points at which a callback, the database or speech output raises.

Scores are whole numbers of tenths of a percent (`Full` = 1000 is 100.0%). Python rounds them with `round(..., 1)`, modelled as round-half-even on the exact value.

Code that loops over mutable state is written as methods. Each one is proved equal to a specification function, and the properties are proved about that function:
- normalize_text's token loop;
- the two loops of the analyses;
- the generator's attempts;
- the interview loop;
- the recognizer's read loop.

Two stateful objects are classes whose methods update their fields:
- `SpeechToText.SpeechRecognizer`;
- `App.Window`, the part of the main window that the session logic touches.

## Model

| member | source | states |
|---|---|---|
| Analyzer.Kept | analyzer.py:43-46 | A lemma is kept iff it is non-empty and alphabetic or one of the allowed technical terms; the kept lemmas are a subsequence of the tokens' lemmas, so order is kept and nothing is added |
| Analyzer.NormalizeText | analyzer.py:35-50 | The token loop returns exactly the kept lemmas of the lower-cased, stripped text, and `[]` when the NLP pipeline raises |
| Analyzer.PartialMatch | analyzer.py:52-60 | Word-overlap matching holds iff some word of the lower-cased requirement is also a word of the lower-cased text |
| Analyzer.PartialMatchSymmetric | analyzer.py:52-60 | Word-overlap matching is symmetric in the requirement and the text |
| Analyzer.PartialMatchNeedsWords | analyzer.py:52-60 | An empty or all-whitespace side never matches, in either position |
| Analyzer.SemanticMatch | analyzer.py:62-74 | A match iff the model is loaded, the similarity is computed without error, and it is at least the threshold; no model means no match |
| Analyzer.SemanticMatchMonotone | analyzer.py:62-74 | A match at one threshold is a match at every lower threshold |
| Analyzer.CoverageScoreBounded | analyzer.py:89 | matched/total × 100 is at most 100.0 |
| Analyzer.CoverageScoreComplete | analyzer.py:89 | Covering every requirement scores exactly 100.0 |
| Analyzer.ResumeReportFacts | analyzer.py:76-98 | matched and missing partition the requirements, in list order and as a multiset; membership in each is exactly passing or failing one of the three tests; the score is at most 100.0; no requirements scores 0.0; none missing scores 100.0 |
| Analyzer.MeetsRequirement | analyzer.py:83-86 | One requirement is met iff lemma overlap, word overlap or similarity ≥ 0.45 holds |
| Analyzer.ScanRequirements | analyzer.py:80-87 | The requirement loop puts exactly the requirements that pass into matched and the others into missing, in order |
| Analyzer.AnalyzeResume | analyzer.py:76-106 | The loop computes the résumé report; an escaping exception gives score 0.0, nothing matched and every requirement missing |
| Analyzer.RemarkTexts | analyzer.py:130-174 | One text per remark, in order |
| Analyzer.RemarkOneLine | analyzer.py:130-174 | No strong-point or gap text contains a newline |
| Analyzer.SentimentRemarks | analyzer.py:123-138 | At most one tone remark: positive iff the classifier says POSITIVE with confidence > 0.7, negative iff NEGATIVE with > 0.7, hesitant iff the confidence is below 0.4; none without a classifier or when it raises |
| Analyzer.ExampleMarkerSubsumed | analyzer.py:160 | Any text containing "например" also contains "пример", so the second marker test never changes the outcome |
| Analyzer.SpecificMeans | analyzer.py:159-160 | A text is specific iff it has more than ten words and a digit, the marker "пример" or a technical term; the "например" test adds nothing |
| Analyzer.SpecificVerdict | analyzer.py:158-170 | An answer is marked specific iff its stripped text is specific; a specific answer has more than ten words, so it is never too short and never too general |
| Analyzer.Flag | analyzer.py:150-174 | A conditional append: the element is present iff the condition holds |
| Analyzer.StrongRemarks | analyzer.py:150-172 | The strong points of an answer include relevance, specificity and good communication exactly when each rule holds |
| Analyzer.GapRemarks | analyzer.py:150-170 | The gaps of an answer include irrelevance, generality and shortness exactly when each rule holds |
| Analyzer.Assemble | analyzer.py:123-174 | Each rule's remark appears iff its condition holds, and the credit is 0.2 per relevant and per specific answer |
| Analyzer.AnswerFindings | analyzer.py:150-166 | One answer earns at most 0.4 of relevance and specificity credit |
| Analyzer.AnswerVerdicts | analyzer.py:150-174 | An answer is relevant or not relevant, specific or too general, never both; fewer than three words is too short; three or more words and over 60 s is good communication; the credit matches |
| Analyzer.Credit | analyzer.py:141-147 | The requirement scan only appends, never repeats a requirement, and afterwards the list holds exactly what it held plus the requirements the answer meets |
| Analyzer.CreditStep | analyzer.py:141-147 | One more requirement either is appended once or leaves the list unchanged |
| Analyzer.FindingsUnits | analyzer.py:149-163 | The relevance and specificity credit of the answers is at most 0.4 per answer |
| Analyzer.TallyAnswers | analyzer.py:116-174 | After the answer loop, matched is duplicate-free and holds exactly the requirements some answer meets; the credit is exactly 0.6 per matched requirement plus each answer's relevance and specificity credit; strong points and gaps hold exactly the remarks some answer raises |
| Analyzer.TallyStepMatched | analyzer.py:141-147 | One more answer adds to matched exactly the requirements it meets, without repeats |
| Analyzer.TallyStepUnits | analyzer.py:146-162 | One more answer adds 0.6 per newly matched requirement and its own relevance and specificity credit |
| Analyzer.TallyStepRemarks | analyzer.py:122-174 | One more answer adds exactly its own strong points and gaps |
| Analyzer.TallyStepAt | analyzer.py:119-174 | The loop over the first i+1 answers is one more step of the loop over the first i |
| Text.Dedup | analyzer.py:184-185 | Deduplication keeps exactly the elements given, without repeats |
| Analyzer.ScoreWithinMaximum | analyzer.py:176-177 | Credit within the bound makes score/max_possible × 100 at most 100.0 |
| Analyzer.UnitsWithinMaximum | analyzer.py:176 | The accumulated credit never exceeds max_possible |
| Analyzer.RatioWithinFull | analyzer.py:177 | A ratio of at most one rounds to at most 100.0 |
| Analyzer.InterviewScoreBounded | analyzer.py:108-197 | The interview score is at most 100.0, on the normal and the failure path |
| Analyzer.DistinctWithin | analyzer.py:176 | A duplicate-free list of requirements is no longer than `len(set(reqs))` |
| Analyzer.InterviewScoreIs | analyzer.py:176-177 | The interview score is the rounded ratio of the credit (0.6 per matched requirement plus the answers' own credit) to max_possible |
| Analyzer.UnmatchedFacts | analyzer.py:183 | The missing list holds the requirements not matched, in vacancy order, each as often as the vacancy lists it; all of them when nothing matched |
| Analyzer.InterviewReportFacts | analyzer.py:108-188 | Interview report: matched is duplicate-free and holds exactly the requirements some answer meets; missing holds the others in vacancy order and multiplicity; strong points and gaps hold exactly the remarks some answer raises, without repeats; the score is the credit over the maximum, at most 100.0, and with no answers it is 0.0 with every requirement missing |
| Analyzer.Heard | analyzer.py:143-144 | A requirement is heard in an answer iff lemma overlap or similarity ≥ 0.5 holds |
| Analyzer.CreditAnswer | analyzer.py:141-147 | The inner loop computes the scan, and gains 0.6 per newly matched requirement |
| Analyzer.MatchRequirements | analyzer.py:117-147 | The scan runs on the stripped answer text and its lemmas |
| Analyzer.ScoreAnswer | analyzer.py:117-174 | One pass of the answer loop computes one tally step |
| Analyzer.AnalyzeInterview | analyzer.py:108-197 | The loop computes the interview report; an escaping exception gives 0.0, nothing matched, every requirement missing and the single analysis-failed gap |
| QuestionGen.DropHeading | interview_helper.py:33 | Removing a heading leaves a suffix, only whitespace is removed after the heading, and all of it: the result is empty or starts with a non-space |
| QuestionGen.DropLabel | interview_helper.py:33 | The heading substitution leaves a suffix of the text, and when it changes the text it has removed one heading and only whitespace after it |
| QuestionGen.DropLabelHeading | interview_helper.py:33 | The text changes iff it starts with a heading (ignoring case), and what is left is then empty or starts with a non-space |
| QuestionGen.LabelAtFinds | interview_helper.py:33 | The alternation finds a heading iff the text starts with one of the three |
| QuestionGen.LabelAt | interview_helper.py:33 | The regex alternation picks the first heading the text starts with, and none iff it starts with no heading |
| QuestionGen.DropMarker | interview_helper.py:34 | The marker substitution leaves a suffix; it removes something iff the text starts with a marker, and then exactly one marker character and all the whitespace after it, so what is left is empty or starts with a non-space |
| QuestionGen.CutAtQuestionMark | interview_helper.py:35-36 | With a '?', the text up to and including the first one; otherwise the text unchanged |
| QuestionGen.NormalizeQuestion | interview_helper.py:30-37 | The cleaned question has no surrounding whitespace |
| QuestionGen.DropLabelKeepsQuestionMarks | interview_helper.py:33 | Dropping a heading keeps every '?' |
| QuestionGen.DropMarkerKeepsQuestionMarks | interview_helper.py:34 | Dropping a marker keeps every '?' |
| QuestionGen.StripKeepsQuestionMarks | interview_helper.py:37 | Stripping keeps every '?' |
| QuestionGen.NormalizeKeepsQuestionMark | interview_helper.py:30-37 | The cleaned question has a '?' iff the raw completion has one |
| QuestionGen.NormalizeEndsAtQuestionMark | interview_helper.py:30-37 | When the raw text has a '?', the cleaned question ends with one and has no other |
| QuestionGen.NormalizeQuestionInfix | interview_helper.py:30-37 | The cleaned question is a contiguous piece of the raw completion |
| QuestionGen.NormalizeQuestionFixpoint | interview_helper.py:30-37 | A question already in clean form (no surrounding whitespace, heading or leading marker, and at most one '?', at the end) is left unchanged |
| QuestionGen.NormalizeQuestionTwice | interview_helper.py:30-37 | Cleaning is not idempotent: a numbered question "d. text?" cleans to ". text?", which cleans again to "text?" |
| QuestionGen.CleanNumbered | interview_helper.py:30-37 | A numbered question "d. text?" loses only its digit |
| QuestionGen.CleanDotted | interview_helper.py:30-37 | A question ". text?" loses the dot and the space after it |
| QuestionGen.CleanAfterMarker | interview_helper.py:30-37 | A stripped text that starts with a marker cleans to what follows the marker and its whitespace, when that ends with its only '?' |
| QuestionGen.MarkerStartsNoHeading | interview_helper.py:33 | A text that starts with a list marker starts with no heading, so the heading substitution leaves it as it is |
| QuestionGen.BasePrompt | interview_helper.py:41-56 | The first prompt carries the vacancy title and the previous answer and no retry note; it shows the last twelve dialogue lines and the last twelve asked questions joined by newlines (all of them when there are fewer), or "Диалог ещё не начат." and "Нет" when there are none |
| QuestionGen.Recent | interview_helper.py:46-47 | `"\n".join(xs[-12:]) if xs else placeholder`: the placeholder for none, all lines for at most twelve, and exactly the last twelve otherwise |
| Text.LastN | interview_helper.py:46-47 | `xs[-n:]` is the suffix of length `n`, or all of `xs` when it is shorter |
| QuestionGen.Attempts | interview_helper.py:60-79 | At most three model calls; an accepted question passes the acceptance test; a raised call ends the attempts with no question |
| QuestionGen.AcceptedShape | interview_helper.py:69-72 | An accepted completion ends with its only '?' |
| QuestionGen.AttemptsShape | interview_helper.py:60-79 | Any question the model produced holds exactly one '?', at its end |
| QuestionGen.AttemptRaises | interview_helper.py:77-79 | A raised call breaks off the attempts without a question |
| QuestionGen.AttemptAccepts | interview_helper.py:69-72 | A completion that passes the test is the question |
| QuestionGen.AttemptRejects | interview_helper.py:73-74 | A completion that fails the test leads to the next attempt with one more retry note |
| QuestionGen.FallbackPool | interview_helper.py:82 | A question is in the fallback pool iff it is in the bank and is unasked or every bank question was asked; so the pool is all the unasked questions, or the whole bank, and empty iff the bank is |
| QuestionGen.FallbackPick | interview_helper.py:82 | The drawn fallback is a bank question, and an unasked one while any is left |
| QuestionGen.Generated | interview_helper.py:39-85 | A produced question is appended to the asked list; the only failure is an empty bank after failed attempts (`random.choice([])`), and then nothing is appended |
| QuestionGen.GeneratedFresh | interview_helper.py:39-85 | The question is from the model or the bank; it is unasked unless every bank question was asked |
| QuestionGen.RunAttempts | interview_helper.py:60-79 | The retry loop computes the attempts |
| QuestionGen.GenerateQuestion | interview_helper.py:39-85 | The method computes the generator's result and the new asked list |
| Interview.Listen | interview_helper.py:124-138 | The listening step sends the stop-by-user, heard or nothing-heard message, or the failure message, and gives the stripped text and the duration (0 when recognition raised) |
| Interview.ListenAndSave | interview_helper.py:113-150 | A turn up to the save appends one record with the question, the answer and the duration, and logs the question, the markers and the listening messages |
| Interview.NextQuestion | interview_helper.py:153-164 | After a saved answer, the generated question is asked next and two history lines are added |
| Interview.TakeTurn | interview_helper.py:110-164 | One loop iteration, including the handler that saves an unanswered record |
| Interview.Interviewed | interview_helper.py:87-168 | The interview raises iff the bank has questions and the opening message fails; a completed one ends its log with the no-questions error for an empty bank, with no answers, and otherwise with the closing message |
| Interview.ConductInterview | interview_helper.py:87-168 | The loop computes the interview outcome |
| InterviewFacts.GeneratedOk | interview_helper.py:82-85 | With a non-empty bank the generator never fails |
| InterviewFacts.TurnEffect | interview_helper.py:110-164 | Each turn appends exactly one record for the current question; a failed turn keeps the question |
| InterviewFacts.TurnsInvariant | interview_helper.py:107-164 | The loop invariant holds after every number of turns |
| InterviewFacts.InterviewRecords | interview_helper.py:87-168 | One record per turn; the first is for the first bank question; each holds what its turn heard; after a failed turn the same question is put again |
| InterviewFacts.AdvanceEffect | interview_helper.py:150-157 | A completed turn that is not the last adds the new question to the asked list and its two history lines |
| InterviewFacts.TurnsLockstep | interview_helper.py:107-157 | Without failures, answers, asked questions and history stay in lockstep |
| InterviewFacts.InterviewDialogue | interview_helper.py:107-157 | Without failures, answer j is to asked question j, and history alternates "HR: " + the next question with "Кандидат: " + the answer |
| InterviewFacts.NoQuestionsNoAnswers | interview_helper.py:99-102 | A vacancy with no questions gives no answers and only the error message |
| SpeechToText.Concat | stt_helper.py:137 | Joining no frames gives no bytes |
| SpeechToText.Transcribed | stt_helper.py:158-161 | A transcription has no surrounding whitespace; it is "" when Whisper raises |
| SpeechToText.StoppedIsIdle | stt_helper.py:96-115 | Stopping leaves the recorder off, closed, idle and marked as stopped by hand, and keeps its buffers |
| SpeechToText.SpeechRecognizer.constructor | stt_helper.py:13-33 | A new recognizer is off and closed, with empty buffers and the given model |
| SpeechToText.SpeechRecognizer.StartRecording | stt_helper.py:71-94 | Starting clears the buffers and opens the stream; a failed open re-raises and leaves it off |
| SpeechToText.SpeechRecognizer.StopRecording | stt_helper.py:96-115 | Stopping updates the fields as `Stopped` says, even when closing raises |
| SpeechToText.SpeechRecognizer.TranscribeChunk | stt_helper.py:35-69 | A chunk transcription appends its text only while recording, when encoding was not too slow and the text is non-empty; it always clears the busy flag |
| SpeechToText.SpeechRecognizer.Interleaved | stt_helper.py:35-69 | A stop press and a pending chunk's thread, as they happen between iterations |
| SpeechToText.SpeechRecognizer.Step | stt_helper.py:125-143 | One read-loop iteration updates the recorder and the loop variables as `Iteration` says |
| SpeechToText.SpeechRecognizer.ListenAndTranscribe | stt_helper.py:117-175 | The method computes the final recorder state and reply |
| SpeechToText.LoopStaysDone | stt_helper.py:125-143 | Once the loop has ended, later ticks change nothing |
| SpeechToText.LoopSound | stt_helper.py:125-143 | Throughout the loop, `chunk_frames` is the tail of `frames` since the last dispatch, at most one chunk is in flight, the busy flag marks it, and no partial text is empty; which audio `frames` holds is stated by `LoopFrames` |
| SpeechToText.IterationFrames | stt_helper.py:125-137 | An ended loop stays as it is; an iteration that keeps it running read audio and appended it to `frames`; one that ends it leaves `frames` unchanged |
| SpeechToText.LoopFrames | stt_helper.py:125-137 | The loop reads every tick until it ends: each tick before the end read audio, `frames` holds exactly that audio in order, and the loop ended at the next tick when ticks remain |
| SpeechToText.FramesReadRunning | stt_helper.py:125-137 | A tick that keeps the loop running read audio, and `frames` grows by exactly that audio |
| SpeechToText.FramesReadEnded | stt_helper.py:125-137 | Once the loop has ended, later ticks change neither `frames` nor the tick at which it stopped |
| SpeechToText.IterationStopFlag | stt_helper.py:125-143 | An iteration marks a stop by hand iff one was marked or the stop button is pressed while the loop runs |
| SpeechToText.LoopStopFlag | stt_helper.py:125-145 | The loop ends marked as stopped by hand iff the stop button was pressed while it ran |
| SpeechToText.JoinEmpty | stt_helper.py:164 | Joining non-empty texts gives "" only for none |
| SpeechToText.ListenStartFails | stt_helper.py:119-121 | A failed start raises and leaves the recorder off, closed and empty |
| SpeechToText.ListenFacts | stt_helper.py:117-167 | The reply is the full pass when it has text, else the partials joined; it is empty only when both are; it reports a stop by hand iff the button was pressed during the loop; the recorder ends off and closed; `ListenFrames` ties `frames` and the full pass to the reads |
| SpeechToText.ListenFrames | stt_helper.py:117-164 | A normal run keeps in `frames` exactly the audio read before the loop ended, and the reply is the transcription of all of it whenever that is not empty |
| Report.Recommend | report_generator.py:7 | Above 70% next stage, below 50% refusal, 50–70% inclusive clarification; exactly one applies |
| Report.RecommendMonotone | report_generator.py:7 | A higher score never gets a worse recommendation |
| Report.Bulleted | report_generator.py:3-6 | One "- item" line per item, in order |
| Report.LinesConcat | report_generator.py:1-9 | Splitting at an inserted newline splits the two halves independently |
| Report.LinesJoin | report_generator.py:3-6 | Joining single-line items with "\n" and splitting gives them back |
| Report.ItemLines | report_generator.py:3-6 | A section's body splits into its bulleted items, or one blank line when there are none |
| Report.HeaderOneLine | report_generator.py:2 | The score line is a single line |
| Report.ReportStarts | report_generator.py:2-3 | Whatever the items hold, the report starts with the score line and a blank line |
| Report.ReportEnds | report_generator.py:7-8 | Whatever the items hold, the report ends with a newline and the recommendation line |
| Report.ReportLayout | report_generator.py:1-9 | Split into lines, the report is: the score line; a blank line; four titled sections in the order strong points, gaps, confirmed, missing, each with its items; the recommendation |
| Scores.RoundHalfEven | main.py:204 | The rounded value is within half a tenth of the exact one; a percentage stays at most 100.0; 0 stays 0 |
| Scores.Blend | main.py:204 | The 40/60 blend lies between the résumé and interview scores |
| Scores.BlendWithinRange | main.py:204 | Blending two percentages gives a percentage |
| Scores.NatToString | report_generator.py:2 | The printed integer part is a non-empty run of digits |
| Scores.FormatTenthsRoundTrip | report_generator.py:2 | A printed score reads back as the same number of tenths |
| VacancyParser.Lookup | vacancy_parser.py:7-13 | The result is the first vacancy with the id; the lookup fails iff none has it, and then with that id |
| VacancyParser.ExtractVacancy | vacancy_parser.py:10-13 | The search loop computes the lookup |
| VacancyParser.FirstWithIdUnique | vacancy_parser.py:10-12 | With duplicate ids the earliest one is the only possible result |
| App.RouteOf | main.py:152-161 | Only the exact markers switch the stop button; a message is logged without display iff it starts with "Interview answers:" and is no marker |
| App.Rendered | main.py:38 | The thread relays each message of the interview, in order |
| App.ThreadAnswers | main.py:36-44 | The thread reports the interview's answers, and an empty list when it raised |
| App.Guard | main.py:165-174 | Start is refused for missing fields (a blank name, no résumé, no vacancy) before it is refused for a missing recogniser; it passes iff all are present |
| App.StartFacts | main.py:165-198 | A refused start changes nothing; a start that passes the guard goes on as `Proceed`; the stop button is never touched |
| App.ProceedFacts | main.py:176-198 | The interview launches iff the résumé was read and the id is listed. A launch uses the stripped name, the first vacancy with the id and the résumé analysed against it; start goes off and the progress lines show. Otherwise start is on again and only "Начало анализа..." shows |
| App.Window.constructor | main.py:74-94 | A new window has stop off, and start off exactly when the recogniser failed to load |
| App.Window.HandleUpdateLog | main.py:145-163 | The window changes as the routing of the message says |
| App.Window.OnStopClicked | main.py:133-143 | With a recogniser, recording stops, the stop button goes off and the notice shows; without one, nothing changes |
| App.Window.Start | main.py:165-198 | The method computes the new window and the outcome of `start_process` |
| App.Window.Analyse | main.py:176-198 | The method computes the new window and the outcome after the guard |
| App.Window.Launch | main.py:185-187 | Shows the résumé score and the interview start, and turns start off |
| App.Window.Finish | main.py:200-231 | Computes the blended total and the window that `finish_process` leaves |
| App.Window.Show | main.py:213-231 | Shows the total and the report, then the saved notice or the failure; start is on again |
| App.RenderRoutes | main.py:153-159 | Every interview message is displayed, except the two markers, which switch the stop button |
| App.RelayStop | main.py:145-163 | Relaying the interview's messages leaves the stop button as the last marker set it |
| App.TurnsStopOff | interview_helper.py:121-141 | After every completed turn the stop button is off again |
| App.InterviewLeavesStopOff | main.py:145-163 | A whole interview relayed to a window with stop off leaves it off |
| App.ThreadAnswersCount | main.py:36-44 | The thread reports no answers for an empty bank or a raised interview, and otherwise one per turn |
| App.ConcludeFacts | main.py:204-211 | The total lies between the two scores, so it is a percentage when both are. The report lists the résumé's confirmed and missing requirements before the interview's, keeping duplicates, and the interview's strong points and gaps |

## Left out

- **Models as oracles.** Natasha, SBERT, the sentiment pipeline, the chat model and Whisper are oracles. Each is a function given as input. Their outputs are unconstrained, and model loading is reduced to present or absent.
- **Floating point.** Scores are exact tenths of a percent. `round(x, 1)` on binary floats is modelled as round-half-even on the exact rational value, so the rare case where a float representation changes a tie is not captured. Durations and times are `real`.
- **Text handling.** Whitespace (`Text.IsSpace`, used for `strip`, `split` and the regex `\s`) is the six ASCII whitespace characters; Python also counts Unicode spaces such as U+00A0, U+0085 and U+2000–U+200A. Digits (`Text.IsDigit`, for `str.isdigit` and the regex `\d`) are ASCII `0`–`9` only, where Python accepts every Unicode decimal digit. Letters (`Text.IsLetter`, for `isalpha`) and `str.lower` cover ASCII and Cyrillic А–я, Ё, ё only, with no other Unicode case folding.
- **Threads and concurrency.** The chunk thread of `_transcribe_chunk` and the stop press from the GUI thread are atomic steps between loop iterations, at points chosen by the input. `self._lock` and the Qt signal queue are not modelled beyond that ordering.
- **Audio and files.** PyAudio, the microphone check in `HRWindow.__init__`, the WAV file and `time.sleep` are left out. A read failure is a missing frame in the tick that ends the loop.
- **The clock.** Each loop iteration reads the clock once, and the whole call ends at a given time. Running out of ticks ends the loop as the timeout does.
- **Chunks in flight.** A chunk still waiting for its thread when the loop ends is dropped.
- **`random.choice`.** It is a `draw` input, taken modulo the pool size.
- **Not part of this model.** `tts_helper.py`, `db_helper.py` and `resume_parser.py`. A failing `speak` or `save_candidate` is a boolean input. `extract_text` is an `Option` input.
- **GUI-only code.** Dialog boxes, logging, `load_vacancies`, `select_resume` and reading `vacancies.json` from disk are left out. The lookup takes the loaded list.
- **Messages.** Exception message texts are not modelled; only the fixed prefix of each error message is kept. The "(длительность: …s)" suffix of the heard-answer message is not rendered.
- **The stop-phrase check.** This check in `conduct_interview` only logs, so it is left out.
- **A failed start of `listen_and_transcribe`.** The handler reads the unassigned `start_time` and raises. It is modelled as `Err(StartFailed)`, and conduct_interview treats it like any recogniser exception.
- **The except branch of `on_stop_clicked`.** It is not modelled. `stop_recording` catches every exception itself, so that branch cannot be reached.
- **A second callback failure.** A log callback that raises inside the interview loop's own exception handler is not modelled. The callback fails at most at the first message of a turn or at the opening message.
- **The recogniser's model-load failure.** `SpeechRecognizer.__init__` raises when the model cannot be loaded. This is the `recognizerLoaded` input of the window and of `start_process`.
- App.Conclude: does not model the `.get('strong_points', [])` and `.get('gaps', [])` defaults. `analyze_interview` always returns both keys, so the defaults never apply.
- Text.Dedup: keeps first occurrences, whereas `list(set(...))` leaves the order unspecified. The contract states only membership and the absence of repeats.
- Report.ReportLayout: requires every listed item to be a single line. Requirement texts come from the vacancy file and may hold newlines, and then the layout lemma says nothing.
- ConcludeFacts: requires every confirmed and missing requirement, of the résumé and of the interview, to be a single line, for the same reason as ReportLayout; for a requirement holding a newline it says nothing about the report's lines (its score clauses still hold, and `ReportStarts`/`ReportEnds` still give the report's first and last lines).
- NormalizeQuestionFixpoint: covers only questions already in clean form. Cleaning is not idempotent in general (`NormalizeQuestionTwice`): the marker class matches a single character, so "1. text?" keeps its dot after one cleaning.
- Interview.Render: the stop-by-user message is written as two pieces that concatenate to the program's literal.

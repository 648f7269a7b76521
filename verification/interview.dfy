/**
 * The interview loop of interview_helper.py (`conduct_interview`): asks a
 * fixed number of questions, records each answer the recogniser returns and
 * asks the question generator for the next question after every answer but
 * the last.
 *
 * The world outside the loop is given as input: for each turn, whether the
 * log callback fails on the turn's first message, whether speech synthesis
 * fails, what the recogniser returns and the draw that stands for
 * `random.choice` in the generator. The number of turns (`max_q`) is the
 * number of events.
 */
module Interview {
  import opened Wrappers
  import opened Text
  import opened Scores
  import opened Domain
  import opened QuestionGen

  /** What `recognizer.listen_and_transcribe` gives back, or that it raised. */
  datatype Capture =
    | Transcript(text: string, duration: real, stoppedManually: bool)
    | CaptureRaises

  /** The outside world during one turn. */
  datatype TurnEvent = TurnEvent(announceRaises: bool, speechFails: bool, capture: Capture, draw: nat)

  /** The messages the loop sends to the log callback (exception texts left out). */
  datatype LogLine =
    | Starting
    | NoQuestions
    | Asking(number: nat, question: string)
    | SpeakFailed
    | EnableStop
    | StoppedByUser
    | Heard(text: string, duration: real)
    | NothingHeard
    | RecognitionFailed
    | DisableStop
    | LoopFailure
    | Finished

  /** The text of each message as the GUI receives it; the two markers are exact. */
  function Render(line: LogLine): string {
    match line
    case Starting => "Начинаем интервью..."
    case NoQuestions => "Ошибка: в вакансии нет вопросов!"
    case Asking(n, q) => "Вопрос " + NatToString(n) + ": " + q
    case SpeakFailed => "Ошибка озвучивания: "
    case EnableStop => "[ENABLE_STOP]"
    case StoppedByUser => "Запись остановлена пользователем, " + "переходим к следующему вопросу."
    case Heard(t, _) => "Ответ кандидата: " + t
    case NothingHeard => "Ответ не получен или пустой."
    case RecognitionFailed => "Ошибка распознавания: "
    case DisableStop => "[DISABLE_STOP]"
    case LoopFailure => "Критическая ошибка в цикле интервью: "
    case Finished => "Интервью завершено."
  }

  /** The loop's variables: `answers`, `history`, `asked_questions`, `q`, and the log so far. */
  datatype Session = Session(
    answers: seq<AnswerRecord>,
    history: seq<string>,
    asked: seq<string>,
    q: string,
    log: seq<LogLine>)

  /** How conduct_interview ends: it returns its answers, or an exception escapes it. */
  datatype Outcome = Completed(answers: seq<AnswerRecord>, log: seq<LogLine>) | Raised(log: seq<LogLine>)

  /** The stripped answer text; empty when the recogniser raised. */
  function AnswerText(c: Capture): string {
    match c
    case Transcript(t, _, _) => Strip(t)
    case CaptureRaises => ""
  }

  /** The recorded duration; 0 when the recogniser raised. */
  function AnswerDuration(c: Capture): real {
    match c
    case Transcript(_, d, _) => d
    case CaptureRaises => 0.0
  }

  /** The messages of a turn between the two markers. */
  function ListenLog(c: Capture): seq<LogLine> {
    match c
    case CaptureRaises => [RecognitionFailed]
    case Transcript(t, d, stop) =>
      (if stop then [StoppedByUser] else [])
      + (if Strip(t) != "" then [Heard(Strip(t), d)] else [NothingHeard])
  }

  /** The messages of a turn that runs to the end: question, markers around the listening. */
  function TurnLog(i: nat, q: string, e: TurnEvent): seq<LogLine> {
    [Asking(i + 1, q)] + (if e.speechFails then [SpeakFailed] else []) + [EnableStop]
    + ListenLog(e.capture) + [DisableStop]
  }

  /** The record the outer exception handler saves: the question with no answer. */
  function Unanswered(q: string): AnswerRecord {
    AnswerRecord(q, "", 0.0)
  }

  /**
   * After the answer is saved: the next question and two history lines, or,
   * when the generator raises, the outer handler's empty record for the same
   * question.
   */
  function Advance(v: Vacancy, llm: Llm, s: Session, saved: Session, text: string, draw: nat): Session {
    var g := Generated(v, s.history, s.asked, text, llm, draw);
    match g.0
    case Ok(nq) => saved.(q := nq, asked := g.1, history := s.history + ["HR: " + nq, "Кандидат: " + text])
    case Err(_) => saved.(answers := saved.answers + [Unanswered(s.q)], log := saved.log + [LoopFailure])
  }

  /** Turn `i` of `n`. */
  function Turn(v: Vacancy, llm: Llm, n: nat, i: nat, s: Session, e: TurnEvent): Session {
    if e.announceRaises then
      s.(answers := s.answers + [Unanswered(s.q)], log := s.log + [LoopFailure])
    else
      var text := AnswerText(e.capture);
      var saved := s.(answers := s.answers + [AnswerRecord(s.q, text, AnswerDuration(e.capture))],
                      log := s.log + TurnLog(i, s.q, e));
      if i + 1 < n then Advance(v, llm, s, saved, text, e.draw) else saved
  }

  /** The state before the loop: the first bank question is asked first. */
  function Opening(v: Vacancy): Session
    requires v.questions != []
  {
    Session([], [], [v.questions[0]], v.questions[0], [Starting])
  }

  /** The first `|events|` turns of `n`, from `start`. */
  function Turns(v: Vacancy, llm: Llm, n: nat, start: Session, events: seq<TurnEvent>): Session {
    if events == [] then start
    else
      var k := |events| - 1;
      Turn(v, llm, n, k, Turns(v, llm, n, start, events[..k]), events[k])
  }

  /**
   * conduct_interview. With no bank questions it reports the problem and
   * returns no answers; when the log callback fails on the opening message
   * the exception escapes; otherwise one turn per event.
   */
  function Interviewed(v: Vacancy, llm: Llm, openingRaises: bool, events: seq<TurnEvent>): (o: Outcome)
    ensures o.Raised? <==> v.questions != [] && openingRaises
    ensures o.Completed? ==> o.log != [] && o.log[|o.log| - 1] == (if v.questions == [] then NoQuestions else Finished)
    ensures o.Completed? && v.questions == [] ==> o.answers == []
  {
    if v.questions == [] then Completed([], [NoQuestions])
    else if openingRaises then Raised([])
    else
      var s := Turns(v, llm, |events|, Opening(v), events);
      Completed(s.answers, s.log + [Finished])
  }

  /** The part of a turn up to and including saving the answer. */
  method ListenAndSave(i: nat, s: Session, e: TurnEvent) returns (saved: Session, answerText: string)
    ensures answerText == AnswerText(e.capture)
    ensures saved == s.(answers := s.answers + [AnswerRecord(s.q, answerText, AnswerDuration(e.capture))],
                        log := s.log + TurnLog(i, s.q, e))
  {
    var spoken := if e.speechFails then [SpeakFailed] else [];
    var heard, duration;
    heard, answerText, duration := Listen(e.capture);
    var lines := [Asking(i + 1, s.q)] + spoken + [EnableStop] + heard + [DisableStop];
    saved := s.(answers := s.answers + [AnswerRecord(s.q, answerText, duration)], log := s.log + lines);
  }

  /** The listening part of a turn: the messages between the markers, the answer text and its duration. */
  method Listen(c: Capture) returns (heard: seq<LogLine>, answerText: string, duration: real)
    ensures heard == ListenLog(c)
    ensures answerText == AnswerText(c) && duration == AnswerDuration(c)
  {
    match c {
      case CaptureRaises =>
        heard, answerText, duration := [RecognitionFailed], "", 0.0;
      case Transcript(t, d, stop) =>
        answerText, duration := Strip(t), d;
        heard := if stop then [StoppedByUser] else [];
        if answerText != "" {
          heard := heard + [Heard(answerText, duration)];
        } else {
          heard := heard + [NothingHeard];
        }
    }
  }

  /** The next question after a saved answer (`Advance`). */
  method NextQuestion(v: Vacancy, llm: Llm, s: Session, saved: Session, answerText: string, draw: nat)
    returns (r: Session)
    ensures r == Advance(v, llm, s, saved, answerText, draw)
  {
    var g, askedAfter := GenerateQuestion(v, s.history, s.asked, answerText, llm, draw);
    match g {
      case Ok(nq) =>
        r := saved.(q := nq, asked := askedAfter, history := s.history + ["HR: " + nq, "Кандидат: " + answerText]);
      case Err(_) =>
        r := saved.(answers := saved.answers + [Unanswered(s.q)], log := saved.log + [LoopFailure]);
    }
  }

  /** One pass of the loop body. */
  method TakeTurn(v: Vacancy, llm: Llm, n: nat, i: nat, s: Session, e: TurnEvent) returns (r: Session)
    ensures r == Turn(v, llm, n, i, s, e)
  {
    if e.announceRaises {
      return s.(answers := s.answers + [Unanswered(s.q)], log := s.log + [LoopFailure]);
    }
    var answerText;
    r, answerText := ListenAndSave(i, s, e);
    if i + 1 < n {
      r := NextQuestion(v, llm, s, r, answerText, e.draw);
    }
  }

  /** conduct_interview, turn by turn. */
  method ConductInterview(v: Vacancy, llm: Llm, openingRaises: bool, events: seq<TurnEvent>) returns (o: Outcome)
    ensures o == Interviewed(v, llm, openingRaises, events)
  {
    if v.questions == [] {
      return Completed([], [NoQuestions]);
    }
    if openingRaises {
      return Raised([]);
    }
    var s := Opening(v);
    for i := 0 to |events|
      invariant s == Turns(v, llm, |events|, Opening(v), events[..i])
    {
      assert events[..i + 1][..i] == events[..i];
      s := TakeTurn(v, llm, |events|, i, s, events[i]);
    }
    assert events[..|events|] == events;
    return Completed(s.answers, s.log + [Finished]);
  }
}

/** What the interview loop guarantees about the answers it returns and the dialogue history. */
module InterviewFacts {
  import opened Wrappers
  import opened Domain
  import opened QuestionGen
  import opened Interview

  /** The answer text saved for a turn: empty when the turn failed before the save. */
  function RecordedAnswer(e: TurnEvent): string {
    if e.announceRaises then "" else AnswerText(e.capture)
  }

  function RecordedDuration(e: TurnEvent): real {
    if e.announceRaises then 0.0 else AnswerDuration(e.capture)
  }

  /** The generator cannot fail while the bank has questions. */
  lemma GeneratedOk(v: Vacancy, history: seq<string>, asked: seq<string>, text: string, llm: Llm, draw: nat)
    requires v.questions != []
    ensures Generated(v, history, asked, text, llm, draw).0.Ok?
  {
  }

  /** The state after the turns `evs`: one record per turn, the first for the first bank question. */
  predicate Shape(v: Vacancy, s: Session, evs: seq<TurnEvent>) {
    && v.questions != []
    && |s.answers| == |evs|
    && s.asked != [] && s.asked[0] == v.questions[0] && s.q == s.asked[|s.asked| - 1]
    && (evs == [] ==> s.q == v.questions[0])
    && (evs != [] ==> s.answers[0].question == v.questions[0])
  }

  /** After a failed turn the same question is put again. */
  predicate Retries(s: Session, evs: seq<TurnEvent>) {
    && |s.answers| == |evs|
    && (forall j {:trigger evs[j]} :: 0 <= j < |evs| - 1 && evs[j].announceRaises ==> s.answers[j + 1].question == s.answers[j].question)
    && (evs != [] && evs[|evs| - 1].announceRaises ==> s.q == s.answers[|evs| - 1].question)
  }

  /** Each record holds what its turn saved. */
  predicate Replies(answers: seq<AnswerRecord>, evs: seq<TurnEvent>) {
    && |answers| == |evs|
    && (forall j :: 0 <= j < |evs| ==> answers[j].answer == RecordedAnswer(evs[j]))
    && (forall j :: 0 <= j < |evs| ==> answers[j].duration == RecordedDuration(evs[j]))
  }

  lemma ExtendReplies(answers: seq<AnswerRecord>, evs: seq<TurnEvent>, e: TurnEvent, q: string)
    requires Replies(answers, evs)
    ensures Replies(answers + [AnswerRecord(q, RecordedAnswer(e), RecordedDuration(e))], evs + [e])
  {
  }

  /** The facts about the step from `s` to `s2` that the invariants need. */
  predicate Step(s: Session, e: TurnEvent, s2: Session) {
    && s2.answers == s.answers + [AnswerRecord(s.q, RecordedAnswer(e), RecordedDuration(e))]
    && |s.asked| <= |s2.asked| && s2.asked[..|s.asked|] == s.asked
    && s2.asked != [] && s2.q == s2.asked[|s2.asked| - 1]
    && (e.announceRaises ==> s2.q == s.q)
  }

  lemma ExtendShape(v: Vacancy, s: Session, evs: seq<TurnEvent>, e: TurnEvent, s2: Session)
    requires Shape(v, s, evs) && Step(s, e, s2)
    ensures Shape(v, s2, evs + [e])
  {
    assert s2.asked[0] == s.asked[0];
  }

  lemma ExtendRetries(s: Session, evs: seq<TurnEvent>, e: TurnEvent, s2: Session)
    requires Retries(s, evs) && Step(s, e, s2)
    ensures Retries(s2, evs + [e])
  {
    var evs', k := evs + [e], |evs|;
    assert forall j :: 0 <= j < k ==> evs'[j] == evs[j] && s2.answers[j] == s.answers[j];
    assert s2.answers[k].question == s.q;
  }

  /** Turn `|evs|` written out: one record, and the question it leaves for the next turn. */
  lemma TurnEffect(v: Vacancy, llm: Llm, n: nat, s: Session, evs: seq<TurnEvent>, e: TurnEvent)
    requires Shape(v, s, evs)
    ensures Step(s, e, Turn(v, llm, n, |evs|, s, e))
  {
    if !e.announceRaises && |evs| + 1 < n {
      var text := AnswerText(e.capture);
      GeneratedOk(v, s.history, s.asked, text, llm, e.draw);
      var g := Generated(v, s.history, s.asked, text, llm, e.draw);
      assert g.1 == s.asked + [g.0.value];
    }
  }

  /** The loop invariant of conduct_interview. */
  predicate Invariant(v: Vacancy, s: Session, evs: seq<TurnEvent>) {
    Shape(v, s, evs) && Replies(s.answers, evs) && Retries(s, evs)
  }

  lemma TurnKeepsInvariant(v: Vacancy, llm: Llm, n: nat, s: Session, evs: seq<TurnEvent>, e: TurnEvent,
                           s2: Session, evs2: seq<TurnEvent>)
    requires Invariant(v, s, evs)
    requires s2 == Turn(v, llm, n, |evs|, s, e) && evs2 == evs + [e]
    ensures Invariant(v, s2, evs2)
  {
    TurnEffect(v, llm, n, s, evs, e);
    ExtendShape(v, s, evs, e, s2);
    ExtendReplies(s.answers, evs, e, s.q);
    ExtendRetries(s, evs, e, s2);
  }

  lemma SplitLast(events: seq<TurnEvent>)
    requires events != []
    ensures events[..|events| - 1] + [events[|events| - 1]] == events
  {
  }

  lemma TurnsUnfold(v: Vacancy, llm: Llm, n: nat, start: Session, events: seq<TurnEvent>)
    requires events != []
    ensures Turns(v, llm, n, start, events)
         == Turn(v, llm, n, |events| - 1, Turns(v, llm, n, start, events[..|events| - 1]), events[|events| - 1])
  {
  }

  lemma {:induction false} TurnsInvariant(v: Vacancy, llm: Llm, n: nat, events: seq<TurnEvent>)
    requires v.questions != []
    ensures Invariant(v, Turns(v, llm, n, Opening(v), events), events)
  {
    if events != [] {
      var k := |events| - 1;
      var prev := Turns(v, llm, n, Opening(v), events[..k]);
      TurnsInvariant(v, llm, n, events[..k]);
      TurnsUnfold(v, llm, n, Opening(v), events);
      SplitLast(events);
      TurnKeepsInvariant(v, llm, n, prev, events[..k], events[k], Turns(v, llm, n, Opening(v), events), events);
    }
  }

  /**
   * With questions in the bank, the interview gives one record per turn; each
   * record holds the stripped recognised text and its duration, or nothing
   * when the turn failed; the first record is for the first bank question;
   * and a failed turn is followed by the same question again.
   */
  lemma InterviewRecords(v: Vacancy, llm: Llm, events: seq<TurnEvent>)
    requires v.questions != []
    ensures var o := Interviewed(v, llm, false, events);
      && o.Completed?
      && |o.answers| == |events|
      && (events != [] ==> o.answers[0].question == v.questions[0])
      && (forall j :: 0 <= j < |events| ==> o.answers[j].answer == RecordedAnswer(events[j]))
      && (forall j :: 0 <= j < |events| ==> o.answers[j].duration == RecordedDuration(events[j]))
      && (forall j {:trigger events[j]} :: 0 <= j < |events| - 1 && events[j].announceRaises ==>
            o.answers[j + 1].question == o.answers[j].question)
  {
    TurnsInvariant(v, llm, |events|, events);
  }

  /** No turn of `evs` failed before its answer was saved. */
  predicate NoFailures(evs: seq<TurnEvent>) {
    forall j :: 0 <= j < |evs| ==> !evs[j].announceRaises
  }

  /**
   * With no failed turn, after `|evs|` of the `n` turns: asked_questions is
   * the list of questions put, plus the one waiting for the next turn, and
   * the history alternates each generated question with the answer it
   * followed.
   */
  predicate Lockstep(s: Session, evs: seq<TurnEvent>, n: nat) {
    && |s.answers| == |evs| <= n
    && |s.asked| == (if |evs| == n && n > 0 then n else |evs| + 1)
    && s.q == s.asked[|s.asked| - 1]
    && (forall j :: 0 <= j < |evs| ==> s.answers[j].question == s.asked[j])
    && |s.history| == 2 * (|s.asked| - 1)
    && (forall i :: 0 <= i < |s.history| ==>
          s.history[i] == if i % 2 == 0 then "HR: " + s.asked[i / 2 + 1] else "Кандидат: " + s.answers[i / 2].answer)
  }

  /** A completed turn that is not the last: the new question joins asked and the history. */
  lemma AdvanceEffect(v: Vacancy, llm: Llm, n: nat, s: Session, k: nat, e: TurnEvent)
    requires v.questions != [] && k + 1 < n && !e.announceRaises
    ensures var s2 := Turn(v, llm, n, k, s, e);
      && s2.asked == s.asked + [s2.q]
      && s2.history == s.history + ["HR: " + s2.q, "Кандидат: " + AnswerText(e.capture)]
      && s2.answers == s.answers + [AnswerRecord(s.q, AnswerText(e.capture), AnswerDuration(e.capture))]
  {
    GeneratedOk(v, s.history, s.asked, AnswerText(e.capture), llm, e.draw);
  }

  /** Lockstep survives a turn that adds one record, one asked question and its two history lines. */
  lemma ExtendLockstep(s: Session, evs: seq<TurnEvent>, e: TurnEvent, n: nat, s2: Session, evs2: seq<TurnEvent>)
    requires Lockstep(s, evs, n) && |evs| + 1 < n && evs2 == evs + [e]
    requires |s2.answers| == |s.answers| + 1 && s2.answers[..|evs|] == s.answers && s2.answers[|evs|].question == s.q
    requires s2.asked == s.asked + [s2.q]
    requires s2.history == s.history + ["HR: " + s2.q, "Кандидат: " + s2.answers[|evs|].answer]
    ensures Lockstep(s2, evs2, n)
  {
    var k := |evs|;
    forall j | 0 <= j < k + 1
      ensures s2.answers[j].question == s2.asked[j]
    {
      if j < k {
        assert s2.answers[j] == s.answers[j];
      }
    }
    forall i | 0 <= i < |s2.history|
      ensures s2.history[i] == if i % 2 == 0 then "HR: " + s2.asked[i / 2 + 1] else "Кандидат: " + s2.answers[i / 2].answer
    {
      if i < 2 * k {
        assert s2.history[i] == s.history[i];
        assert s2.answers[i / 2] == s.answers[i / 2];
      } else {
        assert i / 2 == k;
      }
    }
  }

  /** A turn that generates a question adds it to asked and two history lines. */
  lemma AdvanceLockstep(v: Vacancy, llm: Llm, n: nat, s: Session, evs: seq<TurnEvent>, e: TurnEvent,
                        s2: Session, evs2: seq<TurnEvent>)
    requires v.questions != [] && Lockstep(s, evs, n) && |evs| + 1 < n && !e.announceRaises
    requires s2 == Turn(v, llm, n, |evs|, s, e) && evs2 == evs + [e]
    ensures Lockstep(s2, evs2, n)
  {
    AdvanceEffect(v, llm, n, s, |evs|, e);
    assert s2.answers[..|evs|] == s.answers;
    ExtendLockstep(s, evs, e, n, s2, evs2);
  }

  /** The last turn saves its record and asks nothing more. */
  lemma LastLockstep(v: Vacancy, llm: Llm, n: nat, s: Session, evs: seq<TurnEvent>, e: TurnEvent,
                     s2: Session, evs2: seq<TurnEvent>)
    requires Lockstep(s, evs, n) && |evs| + 1 == n && !e.announceRaises
    requires s2 == Turn(v, llm, n, |evs|, s, e) && evs2 == evs + [e]
    ensures Lockstep(s2, evs2, n)
  {
    assert s2.asked == s.asked && s2.history == s.history;
    assert s2.answers == s.answers + [AnswerRecord(s.q, AnswerText(e.capture), AnswerDuration(e.capture))];
    assert s.q == s.asked[|evs|];
  }

  lemma TurnKeepsLockstep(v: Vacancy, llm: Llm, n: nat, s: Session, evs: seq<TurnEvent>, e: TurnEvent,
                          s2: Session, evs2: seq<TurnEvent>)
    requires v.questions != [] && Lockstep(s, evs, n) && |evs| < n && !e.announceRaises
    requires s2 == Turn(v, llm, n, |evs|, s, e) && evs2 == evs + [e]
    ensures Lockstep(s2, evs2, n)
  {
    if |evs| + 1 < n {
      AdvanceLockstep(v, llm, n, s, evs, e, s2, evs2);
    } else {
      LastLockstep(v, llm, n, s, evs, e, s2, evs2);
    }
  }

  lemma {:induction false} TurnsLockstep(v: Vacancy, llm: Llm, n: nat, events: seq<TurnEvent>)
    requires v.questions != [] && |events| <= n && NoFailures(events)
    ensures Lockstep(Turns(v, llm, n, Opening(v), events), events, n)
  {
    if events != [] {
      var k := |events| - 1;
      var prev := Turns(v, llm, n, Opening(v), events[..k]);
      assert NoFailures(events[..k]) by {
        forall j | 0 <= j < k
          ensures !events[..k][j].announceRaises
        {
          assert events[..k][j] == events[j];
        }
      }
      assert !events[k].announceRaises;
      TurnsLockstep(v, llm, n, events[..k]);
      TurnsUnfold(v, llm, n, Opening(v), events);
      SplitLast(events);
      TurnKeepsLockstep(v, llm, n, prev, events[..k], events[k], Turns(v, llm, n, Opening(v), events), events);
    }
  }

  /**
   * When no turn fails, the loop's asked_questions holds exactly the
   * questions put, in order, and its history pairs every generated question
   * with the answer that preceded it.
   */
  lemma InterviewDialogue(v: Vacancy, llm: Llm, events: seq<TurnEvent>)
    requires v.questions != [] && NoFailures(events)
    ensures var s := Turns(v, llm, |events|, Opening(v), events);
      && |s.answers| == |events| <= |s.asked| <= |events| + 1
      && (forall j :: 0 <= j < |events| ==> s.answers[j].question == s.asked[j])
      && (events != [] ==> |s.asked| == |events|)
      && |s.history| == 2 * (|s.asked| - 1)
      && (forall i :: 0 <= i < |s.history| ==>
            s.history[i] == if i % 2 == 0 then "HR: " + s.asked[i / 2 + 1] else "Кандидат: " + s.answers[i / 2].answer)
  {
    TurnsLockstep(v, llm, |events|, events);
  }

  /** A vacancy without questions gives no answers and the single error message. */
  lemma NoQuestionsNoAnswers(v: Vacancy, llm: Llm, openingRaises: bool, events: seq<TurnEvent>)
    requires v.questions == []
    ensures Interviewed(v, llm, openingRaises, events) == Completed([], [NoQuestions])
  {
  }
}

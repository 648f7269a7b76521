/**
 * The GUI glue of main.py: the window's start and stop buttons and its
 * result box, the routing of the interview's log messages, the interview
 * thread's result, the checks before a session starts and the final
 * scoring that blends the résumé and interview scores into the report.
 *
 * Dialog boxes, logging, the database and speech output are effects this
 * model leaves out; where one of them can raise, the failure is an input.
 */
module App {
  import opened Wrappers
  import opened Text
  import opened Scores
  import opened Domain
  import opened VacancyParser
  import opened Analyzer
  import opened QuestionGen
  import opened Interview
  import opened Report
  import SpeechToText
  import InterviewFacts

  /** What the window shows: the start and stop buttons' enabled state and the lines of the result box. */
  datatype Screen = Screen(startEnabled: bool, stopEnabled: bool, resultBox: seq<string>)

  /** Where `handle_update_log` sends a message. */
  datatype Route = ToEnable | ToDisable | ToShow | ToLogOnly

  const EnableMarker: string := "[ENABLE_STOP]"
  const DisableMarker: string := "[DISABLE_STOP]"
  const AnswersPrefix: string := "Interview answers:"
  const StopPrompt: string := "Нажмите 'Остановить запись', когда закончите отвечать..."

  /** The two markers are matched exactly, and the debug prefix only by a prefix test. */
  function RouteOf(msg: string): (r: Route)
    ensures r == ToEnable <==> msg == EnableMarker
    ensures r == ToDisable <==> msg == DisableMarker
    ensures r == ToLogOnly <==> msg != EnableMarker && msg != DisableMarker && StartsWith(msg, AnswersPrefix)
  {
    if msg == EnableMarker then ToEnable
    else if msg == DisableMarker then ToDisable
    else if !StartsWith(msg, AnswersPrefix) then ToShow
    else ToLogOnly
  }

  /** The window after `handle_update_log(msg)`. */
  function Routed(w: Screen, msg: string): Screen {
    match RouteOf(msg)
    case ToEnable => w.(stopEnabled := true, resultBox := w.resultBox + [StopPrompt])
    case ToDisable => w.(stopEnabled := false)
    case ToShow => w.(resultBox := w.resultBox + [msg])
    case ToLogOnly => w
  }

  /** The window after a series of messages. */
  function Relay(w: Screen, msgs: seq<string>): Screen {
    if msgs == [] then w else Routed(Relay(w, msgs[..|msgs| - 1]), msgs[|msgs| - 1])
  }

  /** The messages the interview sends, in order. */
  function Rendered(log: seq<LogLine>): (msgs: seq<string>)
    ensures |msgs| == |log|
    ensures forall i :: 0 <= i < |log| ==> msgs[i] == Render(log[i])
  {
    if log == [] then [] else Rendered(log[..|log| - 1]) + [Render(log[|log| - 1])]
  }

  /** `InterviewThread.run`: the answers it reports, and nothing when the interview raised. */
  function ThreadAnswers(o: Outcome): (answers: seq<AnswerRecord>)
    ensures o.Raised? ==> answers == []
    ensures o.Completed? ==> answers == o.answers
  {
    match o
    case Completed(answers, _) => answers
    case Raised(_) => []
  }

  /** The message `run` emits before reporting the empty result. */
  const ThreadFailure: string := "Критическая ошибка в интервью: "

  /** Everything the interview thread emits: the interview's messages, then the failure notice if it raised. */
  function ThreadMessages(o: Outcome): seq<string> {
    Rendered(o.log) + (if o.Raised? then [ThreadFailure] else [])
  }

  /** Why `start_process` stops before the analysis, if it does. */
  datatype StartGuard = FieldsMissing | NoRecognizer | GuardPassed

  /**
   * The two checks at the top of `start_process`: every field filled in
   * (a non-blank name, a résumé chosen, a vacancy selected), then a loaded
   * recogniser.
   */
  function Guard(name: string, resumeChosen: bool, vacancyIndex: int, recognizerLoaded: bool): (g: StartGuard)
    ensures g == FieldsMissing <==> Strip(name) == "" || !resumeChosen || vacancyIndex == -1
    ensures g == NoRecognizer <==> Strip(name) != "" && resumeChosen && vacancyIndex != -1 && !recognizerLoaded
    ensures g == GuardPassed <==> Strip(name) != "" && resumeChosen && vacancyIndex != -1 && recognizerLoaded
  {
    if Strip(name) == "" || !resumeChosen || vacancyIndex == -1 then FieldsMissing
    else if !recognizerLoaded then NoRecognizer
    else GuardPassed
  }

  /** What the user has entered when pressing start. */
  datatype StartRequest = StartRequest(
    name: string,
    resumeChosen: bool,
    vacancyIndex: int,
    /** `vacancy_combo.currentData()`. */
    vacancyId: string,
    /** What `extract_text` gives for the chosen file, or None when it raises. */
    resumeText: Option<string>)

  /** How `start_process` ends. */
  datatype StartOutcome =
    | Refused(guard: StartGuard)
    | StartError
    | InterviewLaunched(name: string, resumeText: string, vacancy: Vacancy, resume: ResumeReport)

  const AnalysisStarting: string := "Начало анализа..."
  const InterviewStarting: string := "Начало интервью..."

  function ResumeLine(score: nat): string {
    "Анализ резюме: " + FormatTenths(score) + "% соответствия."
  }

  /**
   * `start_process`: the window afterwards and how it ended. `resumeFault`
   * stands for an exception inside the résumé analysis, which that analysis
   * catches itself.
   */
  function StartProcess(w: Screen, req: StartRequest, recognizerLoaded: bool, vacancies: seq<Vacancy>,
                        nlp: Nlp, resumeFault: bool): (Screen, StartOutcome)
  {
    var g := Guard(req.name, req.resumeChosen, req.vacancyIndex, recognizerLoaded);
    if g != GuardPassed then (w, Refused(g))
    else Proceed(w, req, vacancies, nlp, resumeFault)
  }

  /** `start_process` once the guard has passed. */
  function Proceed(w: Screen, req: StartRequest, vacancies: seq<Vacancy>, nlp: Nlp, resumeFault: bool): (Screen, StartOutcome)
  {
    var box := [AnalysisStarting];
    var found := Lookup(vacancies, req.vacancyId);
    if req.resumeText.None? || found.Err? then (w.(startEnabled := true, resultBox := box), StartError)
    else
      var v := found.value;
      var report := ResumeAnalysis(nlp, req.resumeText.value, v, resumeFault);
      (w.(startEnabled := false, resultBox := box + [ResumeLine(report.score), InterviewStarting]),
       InterviewLaunched(Strip(req.name), req.resumeText.value, v, report))
  }

  /**
   * What `start_process` promises: a refused start changes nothing, and
   * once the guard has passed it goes on as ProceedFacts says. The stop
   * button is never touched.
   */
  lemma StartFacts(w: Screen, req: StartRequest, recognizerLoaded: bool, vacancies: seq<Vacancy>,
                   nlp: Nlp, resumeFault: bool)
    ensures var (w', o) := StartProcess(w, req, recognizerLoaded, vacancies, nlp, resumeFault);
      var g := Guard(req.name, req.resumeChosen, req.vacancyIndex, recognizerLoaded);
      && w'.stopEnabled == w.stopEnabled
      && (o.Refused? <==> g != GuardPassed)
      && (o.Refused? ==> w' == w && o.guard == g)
      && (g == GuardPassed ==> (w', o) == Proceed(w, req, vacancies, nlp, resumeFault) && Strip(req.name) != "")
  {
    var g := Guard(req.name, req.resumeChosen, req.vacancyIndex, recognizerLoaded);
    if g == GuardPassed {
      ProceedFacts(w, req, vacancies, nlp, resumeFault);
    }
  }

  /**
   * Once the guard has passed, the interview is launched exactly when the
   * résumé was read and the vacancy id is in the list, and then with the
   * stripped name, the first vacancy with that id and the résumé analysed
   * against it, the start button off and the progress shown; otherwise the
   * start button is on again and only the first progress line stays.
   */
  lemma ProceedFacts(w: Screen, req: StartRequest, vacancies: seq<Vacancy>, nlp: Nlp, resumeFault: bool)
    ensures var (w', o) := Proceed(w, req, vacancies, nlp, resumeFault);
      && w'.stopEnabled == w.stopEnabled
      && (o.InterviewLaunched? || o.StartError?)
      && (o.InterviewLaunched? <==> req.resumeText.Some?
                                    && exists k :: 0 <= k < |vacancies| && vacancies[k].id == req.vacancyId)
      && (o.InterviewLaunched? ==>
            && o.name == Strip(req.name)
            && Some(o.resumeText) == req.resumeText
            && (exists k :: 0 <= k < |vacancies| && vacancies[k] == o.vacancy && FirstWithId(vacancies, req.vacancyId, k))
            && o.resume == ResumeAnalysis(nlp, o.resumeText, o.vacancy, resumeFault)
            && !w'.startEnabled
            && w'.resultBox == [AnalysisStarting, ResumeLine(o.resume.score), InterviewStarting])
      && (o.StartError? ==> w'.startEnabled && w'.resultBox == [AnalysisStarting])
  {
    var found := Lookup(vacancies, req.vacancyId);
    if found.Ok? {
      var k :| 0 <= k < |vacancies| && vacancies[k] == found.value && FirstWithId(vacancies, req.vacancyId, k);
      assert vacancies[k].id == req.vacancyId;
      if req.resumeText.Some? {
        var score := ResumeAnalysis(nlp, req.resumeText.value, found.value, resumeFault).score;
        Triple(AnalysisStarting, ResumeLine(score), InterviewStarting);
      }
    }
  }

  /** The total score and the report `finish_process` builds. */
  datatype Verdicts = Verdicts(total: nat, report: string)

  /**
   * The scoring part of `finish_process`: 40% résumé and 60% interview,
   * confirmed and missing requirements from both analyses one after the
   * other, strong points and gaps from the interview.
   */
  function Conclude(resume: ResumeReport, interview: InterviewReport): Verdicts {
    var total := Blend(resume.score, interview.score);
    Verdicts(total, GenerateReport(total, resume.matched + interview.matched, resume.missing + interview.missing,
                                   RemarkTexts(interview.strongPoints), RemarkTexts(interview.gaps)))
  }

  /** The effects of `finish_process` after the report that can raise. */
  datatype Effects = Effects(saveFails: bool, speakFails: bool)

  const Saved: string := "Данные сохранены в БД."
  const FinishFailure: string := "Ошибка в обработке результатов: "

  function TotalLine(total: nat): string {
    "Общий скоринг: " + FormatTenths(total) + "%"
  }

  /** The window after `finish_process`: the total and the report, then the save notice or the failure, and start enabled again. */
  function Closed(w: Screen, c: Verdicts, fx: Effects): Screen {
    var shown := w.resultBox + [TotalLine(c.total), c.report];
    var tail :=
      if fx.saveFails then [FinishFailure]
      else if fx.speakFails then [Saved, FinishFailure]
      else [Saved];
    w.(startEnabled := true, resultBox := shown + tail)
  }

  /** HRWindow, reduced to the state the session logic touches. */
  class Window {
    var startEnabled: bool
    var stopEnabled: bool
    var resultBox: seq<string>

    function View(): Screen
      reads this
    {
      Screen(startEnabled, stopEnabled, resultBox)
    }

    /** The window as built: the stop button off, the start button off when the recogniser failed to load. */
    constructor (recognizerLoaded: bool)
      ensures View() == Screen(recognizerLoaded, false, [])
    {
      startEnabled := recognizerLoaded;
      stopEnabled := false;
      resultBox := [];
    }

    /** `handle_update_log`. */
    method HandleUpdateLog(msg: string)
      modifies this
      ensures View() == Routed(old(View()), msg)
    {
      if msg == EnableMarker {
        stopEnabled := true;
        resultBox := resultBox + [StopPrompt];
      } else if msg == DisableMarker {
        stopEnabled := false;
      } else if !StartsWith(msg, AnswersPrefix) {
        resultBox := resultBox + [msg];
      }
    }

    /** `on_stop_clicked`: stops the recogniser, if there is one, and turns the stop button off. */
    method OnStopClicked(rec: SpeechToText.SpeechRecognizer?)
      modifies this, rec
      ensures rec == null ==> View() == old(View())
      ensures rec != null ==> rec.State() == SpeechToText.Stopped(old(rec.State()))
      ensures rec != null ==> View() == old(View()).(stopEnabled := false,
                                                     resultBox := old(resultBox) + ["Запись остановлена пользователем."])
    {
      if rec != null {
        rec.StopRecording(false);
        stopEnabled := false;
        resultBox := resultBox + ["Запись остановлена пользователем."];
      }
    }

    /** `start_process`, up to launching the interview thread. */
    method Start(req: StartRequest, recognizerLoaded: bool, vacancies: seq<Vacancy>, nlp: Nlp, resumeFault: bool)
      returns (outcome: StartOutcome)
      modifies this
      ensures (View(), outcome) == StartProcess(old(View()), req, recognizerLoaded, vacancies, nlp, resumeFault)
    {
      var g := Guard(req.name, req.resumeChosen, req.vacancyIndex, recognizerLoaded);
      if g != GuardPassed {
        return Refused(g);
      }
      outcome := Analyse(req, vacancies, nlp, resumeFault);
    }

    /** `start_process` once the guard has passed: the vacancy looked up and the résumé scored. */
    method Analyse(req: StartRequest, vacancies: seq<Vacancy>, nlp: Nlp, resumeFault: bool)
      returns (outcome: StartOutcome)
      modifies this
      ensures (View(), outcome) == Proceed(old(View()), req, vacancies, nlp, resumeFault)
    {
      var name := Strip(req.name);
      resultBox := [AnalysisStarting];
      if req.resumeText.None? {
        startEnabled := true;
        return StartError;
      }
      var found := ExtractVacancy(vacancies, req.vacancyId);
      if found.Err? {
        startEnabled := true;
        return StartError;
      }
      var report := AnalyzeResume(nlp, req.resumeText.value, found.value, resumeFault);
      Launch(report.score);
      return InterviewLaunched(name, req.resumeText.value, found.value, report);
    }

    /** The end of `start_process` once the résumé is scored: the score shown and the start button off while the interview runs. */
    method Launch(score: nat)
      modifies this
      ensures View() == old(View()).(startEnabled := false, resultBox := old(resultBox) + [ResumeLine(score), InterviewStarting])
    {
      resultBox := resultBox + [ResumeLine(score), InterviewStarting];
      startEnabled := false;
    }

    /** `finish_process` for the answers the interview thread reported. */
    method Finish(nlp: Nlp, answers: seq<AnswerRecord>, v: Vacancy, resume: ResumeReport, interviewFault: bool, fx: Effects)
      returns (total: nat)
      modifies this
      ensures total == Conclude(resume, InterviewAnalysis(nlp, answers, v, interviewFault)).total
      ensures View() == Closed(old(View()), Conclude(resume, InterviewAnalysis(nlp, answers, v, interviewFault)), fx)
    {
      var interview := AnalyzeInterview(nlp, answers, v, interviewFault);
      var c := Conclude(resume, interview);
      total := c.total;
      Show(c, fx);
    }

    /** The display part of `finish_process`. */
    method Show(c: Verdicts, fx: Effects)
      modifies this
      ensures View() == Closed(old(View()), c, fx)
    {
      var shown := resultBox + [TotalLine(c.total), c.report];
      if fx.saveFails {
        resultBox := shown + [FinishFailure];
      } else if fx.speakFails {
        resultBox := shown + [Saved, FinishFailure];
      } else {
        resultBox := shown + [Saved];
      }
      startEnabled := true;
    }
  }

  /** Every message of the interview is displayed, except the two markers, which switch the stop button. */
  lemma RenderRoutes(l: LogLine)
    ensures RouteOf(Render(l)) == (if l == EnableStop then ToEnable else if l == DisableStop then ToDisable else ToShow)
  {
    if l != EnableStop && l != DisableStop {
      var m := Render(l);
      assert m != [] && m[0] != '[' && m[0] != 'I' by {
        match l
        case Asking(n, q) =>
          assert m == "Вопрос " + NatToString(n) + ": " + q;
        case Heard(t, _) =>
          assert m == "Ответ кандидата: " + t;
        case _ =>
      }
      assert m != EnableMarker && m != DisableMarker && !StartsWith(m, AnswersPrefix) by {
        assert EnableMarker[0] == '[' && DisableMarker[0] == '[' && AnswersPrefix[0] == 'I';
      }
    }
  }

  /** The stop button's state after the interview's log lines, starting from `on`. */
  function StopState(on: bool, log: seq<LogLine>): bool {
    if log == [] then on
    else
      var l := log[|log| - 1];
      if l == EnableStop then true
      else if l == DisableStop then false
      else StopState(on, log[..|log| - 1])
  }

  /** Relaying the interview's messages leaves the stop button as StopState says. */
  lemma {:induction false} RelayStop(w: Screen, log: seq<LogLine>)
    ensures Relay(w, Rendered(log)).stopEnabled == StopState(w.stopEnabled, log)
  {
    if log != [] {
      var k := |log| - 1;
      assert Rendered(log)[..k] == Rendered(log[..k]);
      RelayStop(w, log[..k]);
      RenderRoutes(log[k]);
    }
  }

  lemma StopStateSnoc(on: bool, log: seq<LogLine>, l: LogLine)
    requires l != EnableStop && l != DisableStop
    ensures StopState(on, log + [l]) == StopState(on, log)
  {
    assert (log + [l])[..|log|] == log;
  }

  /** A turn ends with the stop button off when it started off. */
  lemma TurnStopsOff(v: Vacancy, llm: Llm, n: nat, i: nat, s: Session, e: TurnEvent)
    requires !StopState(false, s.log)
    ensures !StopState(false, Turn(v, llm, n, i, s, e).log)
  {
    if e.announceRaises {
      StopStateSnoc(false, s.log, LoopFailure);
    } else {
      var text := AnswerText(e.capture);
      var saved := s.(answers := s.answers + [AnswerRecord(s.q, text, AnswerDuration(e.capture))],
                      log := s.log + TurnLog(i, s.q, e));
      assert saved.log[|saved.log| - 1] == DisableStop;
      if i + 1 < n {
        var g := Generated(v, s.history, s.asked, text, llm, e.draw);
        if g.0.Err? {
          StopStateSnoc(false, saved.log, LoopFailure);
        }
      }
    }
  }

  lemma {:induction false} TurnsStopOff(v: Vacancy, llm: Llm, n: nat, events: seq<TurnEvent>)
    requires v.questions != []
    ensures !StopState(false, Turns(v, llm, n, Opening(v), events).log)
  {
    if events != [] {
      var k := |events| - 1;
      TurnsStopOff(v, llm, n, events[..k]);
      TurnStopsOff(v, llm, n, k, Turns(v, llm, n, Opening(v), events[..k]), events[k]);
    }
  }

  /**
   * Relaying a whole interview to a window whose stop button is off leaves
   * it off: every turn that enables it disables it again.
   */
  lemma InterviewLeavesStopOff(w: Screen, v: Vacancy, llm: Llm, openingRaises: bool, events: seq<TurnEvent>)
    requires !w.stopEnabled
    ensures !Relay(w, ThreadMessages(Interviewed(v, llm, openingRaises, events))).stopEnabled
  {
    var o := Interviewed(v, llm, openingRaises, events);
    var msgs := ThreadMessages(o);
    if o.Raised? {
      assert o.log == [];
      assert msgs == [ThreadFailure];
      assert Relay(w, msgs) == Routed(Relay(w, []), ThreadFailure);
    } else {
      assert msgs == Rendered(o.log);
      RelayStop(w, o.log);
      if v.questions != [] {
        var s := Turns(v, llm, |events|, Opening(v), events);
        TurnsStopOff(v, llm, |events|, events);
        StopStateSnoc(false, s.log, Finished);
      }
    }
  }

  /**
   * What the thread reports: no answers when the bank is empty or the
   * interview raised, and otherwise one record per turn.
   */
  lemma ThreadAnswersCount(v: Vacancy, llm: Llm, openingRaises: bool, events: seq<TurnEvent>)
    ensures var answers := ThreadAnswers(Interviewed(v, llm, openingRaises, events));
      && (v.questions == [] || openingRaises ==> answers == [])
      && (v.questions != [] && !openingRaises ==> |answers| == |events|)
  {
    if v.questions != [] && !openingRaises {
      InterviewFacts.InterviewRecords(v, llm, events);
    }
  }

  /**
   * The blended total lies between the two scores, so it is a percentage when
   * both are; the report lists the résumé's confirmed requirements before the
   * interview's and likewise the missing ones, keeping duplicates.
   */
  lemma ConcludeFacts(resume: ResumeReport, interview: InterviewReport)
    requires forall x :: x in resume.matched + interview.matched + resume.missing + interview.missing ==> OneLine(x)
    ensures var c := Conclude(resume, interview);
      && (resume.score <= interview.score ==> resume.score <= c.total <= interview.score)
      && (interview.score <= resume.score ==> interview.score <= c.total <= resume.score)
      && (resume.score <= Full && interview.score <= Full ==> c.total <= Full)
      && Lines(c.report)
         == [Header(c.total), "", "Сильные стороны:"] + Items(RemarkTexts(interview.strongPoints))
          + ["Пробелы:"] + Items(RemarkTexts(interview.gaps))
          + ["Подтверждено:"] + Items(resume.matched + interview.matched)
          + ["Отсутствует:"] + Items(resume.missing + interview.missing)
          + [Closing(Recommend(c.total))]
  {
    var c := Conclude(resume, interview);
    var strong, gaps := RemarkTexts(interview.strongPoints), RemarkTexts(interview.gaps);
    forall x | x in strong
      ensures OneLine(x)
    {
      var i :| 0 <= i < |strong| && strong[i] == x;
      RemarkOneLine(interview.strongPoints[i]);
    }
    forall x | x in gaps
      ensures OneLine(x)
    {
      var i :| 0 <= i < |gaps| && gaps[i] == x;
      RemarkOneLine(interview.gaps[i]);
    }
    ReportLayout(c.total, resume.matched + interview.matched, resume.missing + interview.missing, strong, gaps);
  }
}

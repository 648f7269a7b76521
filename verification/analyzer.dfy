/**
 * The scoring engine of analyzer.py: the lemma filter of normalize_text,
 * the three matching predicates, résumé coverage and interview scoring.
 * The NLP models are oracles: the lemmatiser, the sentence-embedding
 * similarity and the sentiment classifier arrive in an `Nlp` value.
 */
module Analyzer {
  import opened Wrappers
  import opened Text
  import opened Scores
  import opened Domain

  /**
   * The lemmas of the tokens of an already lower-cased, stripped text, in
   * token order (Natasha's segmenter, morphology tagger and lemmatiser);
   * a token without a lemma gives "". None: the pipeline raised.
   */
  type Lemmatizer = string -> Option<seq<string>>

  /** The SBERT model: absent, or cosine similarity (None when encoding raises). */
  datatype Embedder = NoEmbedder | Embedder(similarity: (string, string) -> Option<real>)

  datatype Sentiment = Sentiment(polarity: string, confidence: real)

  /** The sentiment pipeline: absent, or a classification (None when it raises). */
  datatype Classifier = NoClassifier | Classifier(classify: string -> Option<Sentiment>)

  datatype Nlp = Nlp(lemmatize: Lemmatizer, embedder: Embedder, classifier: Classifier)

  /** Lemmas kept even when not purely alphabetic. */
  const AllowedTerms: set<string> := {"sql", "python", "it", "osi", "mikrotik", "cisco", "ssh", "ubuntu"}

  const ResumeThreshold: real := 0.45
  const AnswerThreshold: real := 0.5

  // ---------------------------------------------------------------------------
  // normalize_text

  /** A lemma survives when it is non-empty and alphabetic or an allowed term. */
  predicate KeepLemma(l: string) {
    l != "" && (IsAlpha(l) || l in AllowedTerms)
  }

  /** The surviving lemmas, in token order. */
  function Kept(lemmas: seq<string>): (r: seq<string>)
    ensures forall x :: x in r <==> x in lemmas && KeepLemma(x)
    ensures |r| <= |lemmas|
    ensures IsSubseq(r, lemmas)
  {
    if lemmas == [] then []
    else
      var init, last := lemmas[..|lemmas| - 1], lemmas[|lemmas| - 1];
      SubseqSnoc(Kept(init), init, last, KeepLemma(last));
      assert init + [last] == lemmas;
      Kept(init) + (if KeepLemma(last) then [last] else [])
  }

  /** What normalize_text returns: the kept lemmas, or [] when the pipeline fails. */
  function Normalized(lemmatize: Lemmatizer, text: string): seq<string> {
    match lemmatize(Strip(Lower(text)))
    case None => []
    case Some(lemmas) => Kept(lemmas)
  }

  function LemmaSet(lemmas: seq<string>): set<string> {
    set x | x in lemmas
  }

  /** normalize_text: the token loop that collects the kept lemmas. */
  method NormalizeText(lemmatize: Lemmatizer, text: string) returns (lemmas: seq<string>)
    ensures lemmas == Normalized(lemmatize, text)
    ensures forall x :: x in lemmas ==> KeepLemma(x)
    ensures lemmatize(Strip(Lower(text))).None? ==> lemmas == []
  {
    var tokens := lemmatize(Strip(Lower(text)));
    if tokens.None? {
      return [];
    }
    var ls := tokens.value;
    lemmas := [];
    for i := 0 to |ls|
      invariant lemmas == Kept(ls[..i])
    {
      assert ls[..i + 1][..i] == ls[..i];
      if KeepLemma(ls[i]) {
        lemmas := lemmas + [ls[i]];
      }
    }
    assert ls[..|ls|] == ls;
  }

  // ---------------------------------------------------------------------------
  // partial_match and semantic_match

  /** partial_match: the lower-cased whitespace-split word sets intersect. */
  function PartialMatch(req: string, text: string): (m: bool)
    ensures m <==> exists w :: w in Words(Lower(req)) && w in Words(Lower(text))
  {
    var xs, ys := Words(Lower(req)), Words(Lower(text));
    CommonElement(xs, ys);
    (set w | w in xs) * (set w | w in ys) != {}
  }

  /** Two word sets intersect exactly when the lists share a word. */
  lemma CommonElement(xs: seq<string>, ys: seq<string>)
    ensures (set w | w in xs) * (set w | w in ys) != {} <==> exists w :: w in xs && w in ys
  {
    var c := (set w | w in xs) * (set w | w in ys);
    if c != {} {
      var w :| w in c;
      assert w in xs && w in ys;
    }
    if exists w :: w in xs && w in ys {
      var w :| w in xs && w in ys;
      assert w in c;
    }
  }

  lemma PartialMatchSymmetric(a: string, b: string)
    ensures PartialMatch(a, b) == PartialMatch(b, a)
  {
  }

  /** A side with no words (empty or all whitespace) never matches. */
  lemma PartialMatchNeedsWords(req: string, text: string)
    requires forall i :: 0 <= i < |req| ==> IsSpace(req[i])
    ensures !PartialMatch(req, text) && !PartialMatch(text, req)
  {
    var low := Lower(req);
    assert forall i :: 0 <= i < |low| ==> IsSpace(low[i]) by {
      forall i | 0 <= i < |low|
        ensures IsSpace(low[i])
      {
        assert low[i] == LowerChar(req[i]);
      }
    }
    WordsEmptyIff(low);
    assert (set w | w in Words(low)) == {};
  }

  /** semantic_match: false without the model or on error, else similarity >= threshold. */
  function SemanticMatch(e: Embedder, a: string, b: string, threshold: real): (r: bool)
    ensures e.NoEmbedder? ==> !r
    ensures r <==> e.Embedder? && e.similarity(a, b).Some? && e.similarity(a, b).value >= threshold
  {
    match e
    case NoEmbedder => false
    case Embedder(similarity) =>
      match similarity(a, b)
      case None => false
      case Some(s) => s >= threshold
  }

  /** A match at one threshold is a match at every lower threshold. */
  lemma SemanticMatchMonotone(e: Embedder, a: string, b: string, hi: real, lo: real)
    requires lo <= hi && SemanticMatch(e, a, b, hi)
    ensures SemanticMatch(e, a, b, lo)
  {
  }

  // ---------------------------------------------------------------------------
  // analyze_resume_vs_vacancy

  /** A requirement is met by the résumé under any of the three predicates. */
  predicate ResumeHit(nlp: Nlp, resumeLemmas: set<string>, resumeText: string, req: string) {
    resumeLemmas * LemmaSet(Normalized(nlp.lemmatize, req)) != {}
    || PartialMatch(req, resumeText)
    || SemanticMatch(nlp.embedder, req, resumeText, ResumeThreshold)
  }

  function ResumeTest(nlp: Nlp, resumeLemmas: set<string>, resumeText: string): string -> bool {
    req => ResumeHit(nlp, resumeLemmas, resumeText, req)
  }

  datatype ResumeReport = ResumeReport(vacancy: string, score: nat, matched: seq<string>, missing: seq<string>)

  /** Coverage percentage in tenths: matched / total * 100, 0 when there is nothing to cover. */
  function CoverageScore(matched: nat, total: nat): nat {
    if total == 0 then 0 else RoundHalfEven(Full * matched, total)
  }

  /**
   * What analyze_resume_vs_vacancy returns. `fault` stands for an exception
   * escaping the body, which yields the fail-closed report.
   */
  function ResumeAnalysis(nlp: Nlp, resumeText: string, v: Vacancy, fault: bool): ResumeReport {
    if fault then ResumeReport(v.title, 0, [], v.requirements)
    else
      var hit := ResumeTest(nlp, LemmaSet(Normalized(nlp.lemmatize, resumeText)), resumeText);
      var matched := Select(hit, v.requirements);
      ResumeReport(v.title, CoverageScore(|matched|, |v.requirements|), matched, Reject(hit, v.requirements))
  }

  /** The résumé score is a percentage: between 0.0 and 100.0. */
  lemma CoverageScoreBounded(matched: nat, total: nat)
    requires matched <= total
    ensures CoverageScore(matched, total) <= Full
  {
    if total > 0 {
      MulMono(matched, total, Full);
    }
  }

  /** Full coverage scores exactly 100.0. */
  lemma CoverageScoreComplete(n: nat)
    requires n > 0
    ensures CoverageScore(n, n) == Full
  {
    var r := RoundHalfEven(Full * n, n);
    if r < Full {
      MulMono(r + 1, Full, 2 * n);
    }
  }

  /**
   * The résumé report: every requirement is in exactly one of matched and
   * missing (those passing the test, and those failing it, in list order),
   * the score is their ratio and lies in [0.0, 100.0], and a requirement
   * list that is empty scores 0.0.
   */
  lemma ResumeReportFacts(nlp: Nlp, resumeText: string, v: Vacancy)
    ensures var r := ResumeAnalysis(nlp, resumeText, v, false);
            var hit := ResumeTest(nlp, LemmaSet(Normalized(nlp.lemmatize, resumeText)), resumeText);
            && multiset(r.matched) + multiset(r.missing) == multiset(v.requirements)
            && IsSubseq(r.matched, v.requirements) && IsSubseq(r.missing, v.requirements)
            && |r.matched| + |r.missing| == |v.requirements|
            && (forall x :: x in r.matched <==> x in v.requirements && hit(x))
            && (forall x :: x in r.missing <==> x in v.requirements && !hit(x))
            && r.score <= Full
            && (v.requirements == [] ==> r.score == 0 && r.matched == [] && r.missing == [])
            && (v.requirements != [] && r.missing == [] ==> r.score == Full)
  {
    var hit := ResumeTest(nlp, LemmaSet(Normalized(nlp.lemmatize, resumeText)), resumeText);
    var reqs := v.requirements;
    SelectRejectPartition(hit, reqs);
    SelectRejectOrder(hit, reqs);
    forall x ensures x in Select(hit, reqs) <==> x in reqs && hit(x)
                 ensures x in Reject(hit, reqs) <==> x in reqs && !hit(x) {
      SelectRejectMembers(hit, reqs, x);
    }
    CoverageScoreBounded(|Select(hit, reqs)|, |reqs|);
    if reqs != [] && Reject(hit, reqs) == [] {
      CoverageScoreComplete(|reqs|);
    }
  }

  /** The three tests of one requirement against the résumé. */
  method MeetsRequirement(nlp: Nlp, resumeLemmas: set<string>, resumeText: string, req: string) returns (found: bool)
    ensures found == ResumeHit(nlp, resumeLemmas, resumeText, req)
  {
    var reqLemmas := NormalizeText(nlp.lemmatize, req);
    found := resumeLemmas * LemmaSet(reqLemmas) != {} || PartialMatch(req, resumeText)
             || SemanticMatch(nlp.embedder, req, resumeText, ResumeThreshold);
  }

  /** analyze_resume_vs_vacancy. */
  method AnalyzeResume(nlp: Nlp, resumeText: string, v: Vacancy, fault: bool) returns (r: ResumeReport)
    ensures r == ResumeAnalysis(nlp, resumeText, v, fault)
    ensures fault ==> r.score == 0 && r.matched == [] && r.missing == v.requirements
  {
    if fault {
      return ResumeReport(v.title, 0, [], v.requirements);
    }
    var resumeLemmas := NormalizeText(nlp.lemmatize, resumeText);
    var matched, missing := ScanRequirements(nlp, LemmaSet(resumeLemmas), resumeText, v.requirements);
    r := ResumeReport(v.title, CoverageScore(|matched|, |v.requirements|), matched, missing);
  }

  /** The requirement loop of analyze_resume: each requirement goes to matched or to missing. */
  method ScanRequirements(nlp: Nlp, rl: set<string>, resumeText: string, reqs: seq<string>)
    returns (matched: seq<string>, missing: seq<string>)
    ensures matched == Select(ResumeTest(nlp, rl, resumeText), reqs)
    ensures missing == Reject(ResumeTest(nlp, rl, resumeText), reqs)
  {
    ghost var hit := ResumeTest(nlp, rl, resumeText);
    assert reqs[..|reqs|] == reqs;
    matched, missing := [], [];
    for i := 0 to |reqs|
      invariant matched == Select(hit, reqs[..i])
      invariant missing == Reject(hit, reqs[..i])
    {
      SelectRejectStep(hit, reqs, i);
      var found := MeetsRequirement(nlp, rl, resumeText, reqs[i]);
      if found {
        matched := matched + [reqs[i]];
      } else {
        missing := missing + [reqs[i]];
      }
    }
  }

  // ---------------------------------------------------------------------------
  // analyze_interview

  /** The strong points and gaps analyze_interview can report. */
  datatype Remark =
    | PositiveTone | NegativeTone | HesitantTone
    | Relevant | NotRelevant
    | Specific | TooGeneral
    | TooShort | GoodCommunication
    | AnalysisFailed

  /** The text the report prints for a remark. */
  function RemarkText(r: Remark): string {
    match r
    case PositiveTone => "Позитивный настрой в ответе"
    case NegativeTone => "Негативный тон ответа"
    case HesitantTone => "Неуверенный тон ответа"
    case Relevant => "Ответ релевантен вопросу"
    case NotRelevant => "Ответ не полностью релевантен вопросу"
    case Specific => "Конкретный ответ с примерами"
    case TooGeneral => "Ответ слишком общий или короткий"
    case TooShort => "Слишком короткий ответ"
    case GoodCommunication => "Хорошие коммуникативные навыки"
    case AnalysisFailed => "Ошибка анализа ответов"
  }

  /** The texts of a list of remarks. */
  function RemarkTexts(rs: seq<Remark>): (ts: seq<string>)
    ensures |ts| == |rs|
    ensures forall i :: 0 <= i < |rs| ==> ts[i] == RemarkText(rs[i])
  {
    seq(|rs|, i requires 0 <= i < |rs| => RemarkText(rs[i]))
  }

  /** No remark text spans two lines. */
  lemma RemarkOneLine(r: Remark)
    ensures '\n' !in RemarkText(r)
  {
    if r.PositiveTone? || r.NegativeTone? || r.HesitantTone? {
      ToneOneLine(r);
    } else if r.Relevant? || r.NotRelevant? {
      RelevanceOneLine(r);
    } else if r.Specific? || r.TooGeneral? {
      SpecificityOneLine(r);
    } else {
      FormOneLine(r);
    }
  }

  /** The tone remarks, one group at a time so that `RemarkOneLine` stays cheap. */
  lemma ToneOneLine(r: Remark)
    requires r.PositiveTone? || r.NegativeTone? || r.HesitantTone?
    ensures '\n' !in RemarkText(r)
  {
  }

  /** The relevance remarks, one group at a time so that `RemarkOneLine` stays cheap. */
  lemma RelevanceOneLine(r: Remark)
    requires r.Relevant? || r.NotRelevant?
    ensures '\n' !in RemarkText(r)
  {
  }

  /** The specificity remarks, one group at a time so that `RemarkOneLine` stays cheap. */
  lemma SpecificityOneLine(r: Remark)
    requires r.Specific? || r.TooGeneral?
    ensures '\n' !in RemarkText(r)
  {
  }

  /** The remaining remarks, one group at a time so that `RemarkOneLine` stays cheap. */
  lemma FormOneLine(r: Remark)
    requires r.TooShort? || r.GoodCommunication? || r.AnalysisFailed?
    ensures '\n' !in RemarkText(r)
  {
  }

  const TechTerms: seq<string> := ["python", "crm", "ai", "модель", "беспилотник", "автоматизация"]

  /** Credit in units of 0.2: a newly matched requirement is worth 0.6. */
  const RequirementUnits: nat := 3

  /** The strong points and gaps the sentiment rule adds for one answer. */
  function SentimentRemarks(c: Classifier, text: string): (sg: (seq<Remark>, seq<Remark>))
    ensures |sg.0| + |sg.1| <= 1
    ensures forall x :: x in sg.0 ==> x == PositiveTone
    ensures forall x :: x in sg.1 ==> x == NegativeTone || x == HesitantTone
    ensures PositiveTone in sg.0 <==>
              (c.Classifier? && c.classify(text).Some?
               && c.classify(text).value.polarity == "POSITIVE" && c.classify(text).value.confidence > 0.7)
    ensures NegativeTone in sg.1 <==>
              (c.Classifier? && c.classify(text).Some?
               && c.classify(text).value.polarity == "NEGATIVE" && c.classify(text).value.confidence > 0.7)
    ensures HesitantTone in sg.1 <==> c.Classifier? && c.classify(text).Some? && c.classify(text).value.confidence < 0.4
  {
    match c
    case NoClassifier => ([], [])
    case Classifier(classify) =>
      match classify(text)
      case None => ([], [])
      case Some(s) =>
        if s.polarity == "POSITIVE" && s.confidence > 0.7 then ([PositiveTone], [])
        else if s.polarity == "NEGATIVE" && s.confidence > 0.7 then ([], [NegativeTone])
        else if s.confidence < 0.4 then ([], [HesitantTone])
        else ([], [])
  }

  /** The answer has a digit, an example marker or a technical term. */
  predicate MentionsSpecifics(text: string) {
    var low := Lower(text);
    (exists i :: 0 <= i < |text| && IsDigit(text[i]))
    || Contains(low, "пример") || Contains(low, "например")
    || (exists t :: t in TechTerms && Contains(low, t))
  }

  /** Specific: more than ten words and a digit, an example marker or a term. */
  predicate IsSpecific(text: string) {
    |Words(text)| > 10 && MentionsSpecifics(text)
  }

  /** "например" contains "пример", so the second marker test never decides anything. */
  lemma {:induction false} ExampleMarkerSubsumed(low: string)
    requires Contains(low, "например")
    ensures Contains(low, "пример")
    decreases |low|
  {
    if !StartsWith(low, "например") {
      ExampleMarkerSubsumed(low[1..]);
    } else {
      assert low[2..8] == "пример";
      ContainsAt(low, "пример", 2);
    }
  }

  /** `[x]` when the condition holds, else nothing: one `append` under an `if`. */
  function Flag(b: bool, x: Remark): (r: seq<Remark>)
    ensures forall y :: y in r <==> b && y == x
  {
    if b then [x] else []
  }

  /** Strong points, gaps and relevance/specificity credit of one answer. */
  datatype Findings = Findings(strong: seq<Remark>, gaps: seq<Remark>, units: nat)

  /**
   * The remarks and credit of one answer from the verdicts of the rules: the
   * tone remarks come first, then relevance, specificity and length, in the
   * order the rules append them.
   */
  function Assemble(tone: (seq<Remark>, seq<Remark>), relevant: bool, specific: bool, words: nat, duration: real): (f: Findings)
    requires forall x :: x in tone.0 ==> x == PositiveTone
    requires forall x :: x in tone.1 ==> x == NegativeTone || x == HesitantTone
    ensures Relevant in f.strong <==> relevant
    ensures NotRelevant in f.gaps <==> !relevant
    ensures Specific in f.strong <==> specific
    ensures TooGeneral in f.gaps <==> !specific
    ensures TooShort in f.gaps <==> words < 3
    ensures GoodCommunication in f.strong <==> words >= 3 && duration > 60.0
    ensures f.units == (if Relevant in f.strong then 1 else 0) + (if Specific in f.strong then 1 else 0)
  {
    Findings(StrongRemarks(tone.0, relevant, specific, words >= 3 && duration > 60.0),
             GapRemarks(tone.1, relevant, specific, words < 3),
             (if relevant then 1 else 0) + (if specific then 1 else 0))
  }

  /** The strong points of one answer: the tone's, then relevance, specificity and communication. */
  function StrongRemarks(positive: seq<Remark>, relevant: bool, specific: bool, communicates: bool): (s: seq<Remark>)
    requires forall x :: x in positive ==> x == PositiveTone
    ensures Relevant in s <==> relevant
    ensures Specific in s <==> specific
    ensures GoodCommunication in s <==> communicates
  {
    positive + Flag(relevant, Relevant) + Flag(specific, Specific) + Flag(communicates, GoodCommunication)
  }

  /** The gaps of one answer: the tone's, then irrelevance, generality and shortness. */
  function GapRemarks(negative: seq<Remark>, relevant: bool, specific: bool, short: bool): (g: seq<Remark>)
    requires forall x :: x in negative ==> x == NegativeTone || x == HesitantTone
    ensures NotRelevant in g <==> !relevant
    ensures TooGeneral in g <==> !specific
    ensures TooShort in g <==> short
  {
    negative + Flag(!relevant, NotRelevant) + Flag(!specific, TooGeneral) + Flag(short, TooShort)
  }

  /** The per-answer rules on the stripped answer: tone, relevance, specificity and length. */
  function AnswerFindings(nlp: Nlp, a: AnswerRecord): (f: Findings)
    ensures f.units <= 2
  {
    var text := Strip(a.answer);
    Assemble(SentimentRemarks(nlp.classifier, text), SemanticMatch(nlp.embedder, a.question, text, AnswerThreshold),
             IsSpecific(text), |Words(text)|, a.duration)
  }

  /**
   * Each answer is relevant to its question or not, specific or too
   * general, never both; fewer than three words is too short, and a longer
   * answer that took more than a minute shows good communication; credit
   * is 0.2 for relevance and 0.2 for specificity and nothing else.
   */
  lemma AnswerVerdicts(nlp: Nlp, a: AnswerRecord)
    ensures var f := AnswerFindings(nlp, a);
            var text := Strip(a.answer);
            var relevant := SemanticMatch(nlp.embedder, a.question, text, AnswerThreshold);
            && (Relevant in f.strong <==> relevant) && (NotRelevant in f.gaps <==> !relevant)
            && (Specific in f.strong <==> IsSpecific(text)) && (TooGeneral in f.gaps <==> !IsSpecific(text))
            && (TooShort in f.gaps <==> |Words(text)| < 3)
            && (GoodCommunication in f.strong <==> |Words(text)| >= 3 && a.duration > 60.0)
            && f.units == (if Relevant in f.strong then 1 else 0) + (if Specific in f.strong then 1 else 0)
  {
    var text := Strip(a.answer);
    var tone := SentimentRemarks(nlp.classifier, text);
    var relevant := SemanticMatch(nlp.embedder, a.question, text, AnswerThreshold);
    var f := Assemble(tone, relevant, IsSpecific(text), |Words(text)|, a.duration);
    assert AnswerFindings(nlp, a) == f;
  }

  /**
   * A text is specific exactly when it has more than ten words and a
   * digit, the marker "пример" (which also covers "например") or a
   * technical term.
   */
  lemma SpecificMeans(text: string)
    ensures IsSpecific(text) <==>
              |Words(text)| > 10
              && ((exists i :: 0 <= i < |text| && IsDigit(text[i]))
                  || Contains(Lower(text), "пример")
                  || (exists t :: t in TechTerms && Contains(Lower(text), t)))
  {
    var low := Lower(text);
    if Contains(low, "например") {
      ExampleMarkerSubsumed(low);
    }
  }

  /** The specificity verdict of an answer; a specific answer is never too short. */
  lemma SpecificVerdict(nlp: Nlp, a: AnswerRecord)
    ensures var text := Strip(a.answer);
            var f := AnswerFindings(nlp, a);
            && (Specific in f.strong <==> IsSpecific(text))
            && (Specific in f.strong ==> |Words(text)| > 10 && TooShort !in f.gaps && TooGeneral !in f.gaps)
  {
    AnswerVerdicts(nlp, a);
  }

  /** The answer meets the requirement by lemma overlap or by similarity at 0.5. */
  predicate RequirementHeard(nlp: Nlp, ansLemmas: set<string>, ansText: string, req: string) {
    ansLemmas * LemmaSet(Normalized(nlp.lemmatize, req)) != {}
    || SemanticMatch(nlp.embedder, req, ansText, AnswerThreshold)
  }

  function HeardTest(nlp: Nlp, ansLemmas: set<string>, ansText: string): string -> bool {
    req => RequirementHeard(nlp, ansLemmas, ansText, req)
  }

  /** The requirement test for one recorded answer, on its stripped text. */
  function AnswerTest(nlp: Nlp, a: AnswerRecord): string -> bool {
    var text := Strip(a.answer);
    HeardTest(nlp, LemmaSet(Normalized(nlp.lemmatize, text)), text)
  }

  /**
   * The matched list after scanning `reqs` for one answer: each heard
   * requirement not yet in the list is appended, once.
   */
  function Credit(heard: string -> bool, reqs: seq<string>, matched: seq<string>): (r: seq<string>)
    ensures |matched| <= |r| && r[..|matched|] == matched
    ensures Distinct(matched) ==> Distinct(r)
    ensures forall x :: x in r <==> x in matched || (x in reqs && heard(x))
  {
    if reqs == [] then matched
    else
      var init, req := reqs[..|reqs| - 1], reqs[|reqs| - 1];
      assert reqs == init + [req];
      var m := Credit(heard, init, matched);
      if heard(req) && req !in m then m + [req] else m
  }

  lemma CreditStep(heard: string -> bool, reqs: seq<string>, matched: seq<string>, j: nat)
    requires j < |reqs|
    ensures var m := Credit(heard, reqs[..j], matched);
            Credit(heard, reqs[..j + 1], matched) == if heard(reqs[j]) && reqs[j] !in m then m + [reqs[j]] else m
  {
    assert reqs[..j + 1][..j] == reqs[..j];
  }

  /** The running state of analyze_interview's answer loop. */
  datatype Tally = Tally(matched: seq<string>, units: nat, strong: seq<Remark>, gaps: seq<Remark>)

  /** One pass of the answer loop. */
  function TallyStep(nlp: Nlp, reqs: seq<string>, t: Tally, a: AnswerRecord): Tally {
    var m := Credit(AnswerTest(nlp, a), reqs, t.matched);
    Accumulate(t, m, RequirementUnits * (|m| - |t.matched|), AnswerFindings(nlp, a))
  }

  /** Adds one answer's matched requirements, their units and its findings to the running tally. */
  function Accumulate(t: Tally, m: seq<string>, gained: nat, f: Findings): Tally {
    Tally(m, t.units + gained + f.units, t.strong + f.strong, t.gaps + f.gaps)
  }

  /** The relevance and specificity credit of the answers, 0.2 per verdict. */
  function FindingsUnits(nlp: Nlp, answers: seq<AnswerRecord>): (u: nat)
    ensures u <= 2 * |answers|
  {
    if answers == [] then 0
    else FindingsUnits(nlp, answers[..|answers| - 1]) + AnswerFindings(nlp, answers[|answers| - 1]).units
  }

  /** The test "this answer meets `req`", one per requirement. */
  function MeetsTest(nlp: Nlp, req: string): AnswerRecord -> bool {
    a => AnswerTest(nlp, a)(req)
  }

  /** The test "this answer raises `x` as a strong point". */
  function StrongTest(nlp: Nlp, x: Remark): AnswerRecord -> bool {
    a => x in AnswerFindings(nlp, a).strong
  }

  /** The test "this answer raises `x` as a gap". */
  function GapTest(nlp: Nlp, x: Remark): AnswerRecord -> bool {
    a => x in AnswerFindings(nlp, a).gaps
  }

  /** The interview credit: 0.6 per matched requirement plus the answers' own credit. */
  function Credited(matched: nat, answerUnits: nat): nat {
    RequirementUnits * matched + answerUnits
  }

  /**
   * The state after the answer loop. The matched list never repeats a
   * requirement and holds exactly the requirements some answer meets; the
   * credit is 0.6 per matched requirement plus each answer's relevance and
   * specificity credit; the strong points and gaps are those of the answers.
   */
  function TallyAnswers(nlp: Nlp, reqs: seq<string>, answers: seq<AnswerRecord>): (t: Tally)
    ensures Distinct(t.matched)
    ensures forall x :: x in t.matched <==> x in reqs && Any(answers, MeetsTest(nlp, x))
    ensures t.units == Credited(|t.matched|, FindingsUnits(nlp, answers))
    ensures forall x :: x in t.strong <==> Any(answers, StrongTest(nlp, x))
    ensures forall x :: x in t.gaps <==> Any(answers, GapTest(nlp, x))
  {
    if answers == [] then Tally([], 0, [], [])
    else
      var init, last := answers[..|answers| - 1], answers[|answers| - 1];
      var t := TallyAnswers(nlp, reqs, init);
      TallyStepMatched(nlp, reqs, t, answers);
      TallyStepUnits(nlp, reqs, t, answers);
      TallyStepRemarks(nlp, reqs, t, answers);
      TallyStep(nlp, reqs, t, last)
  }

  /** One more answer adds to the matched list exactly the requirements it meets. */
  lemma TallyStepMatched(nlp: Nlp, reqs: seq<string>, t: Tally, answers: seq<AnswerRecord>)
    requires answers != []
    requires Distinct(t.matched)
    requires forall x :: x in t.matched <==> x in reqs && Any(answers[..|answers| - 1], MeetsTest(nlp, x))
    ensures var t' := TallyStep(nlp, reqs, t, answers[|answers| - 1]);
            && Distinct(t'.matched)
            && forall x :: x in t'.matched <==> x in reqs && Any(answers, MeetsTest(nlp, x))
  {
    var m := Credit(AnswerTest(nlp, answers[|answers| - 1]), reqs, t.matched);
    assert TallyStep(nlp, reqs, t, answers[|answers| - 1]).matched == m;
    forall x
      ensures x in m <==> x in reqs && Any(answers, MeetsTest(nlp, x))
    {
      AnySnoc(answers, MeetsTest(nlp, x));
    }
  }

  /** One more answer adds 0.6 per newly matched requirement and its own credit. */
  lemma TallyStepUnits(nlp: Nlp, reqs: seq<string>, t: Tally, answers: seq<AnswerRecord>)
    requires answers != []
    requires t.units == Credited(|t.matched|, FindingsUnits(nlp, answers[..|answers| - 1]))
    ensures var t' := TallyStep(nlp, reqs, t, answers[|answers| - 1]);
            t'.units == Credited(|t'.matched|, FindingsUnits(nlp, answers))
  {
    var last := answers[|answers| - 1];
    var m := Credit(AnswerTest(nlp, last), reqs, t.matched);
    var before := FindingsUnits(nlp, answers[..|answers| - 1]);
    assert FindingsUnits(nlp, answers) == before + AnswerFindings(nlp, last).units;
    assert TallyStep(nlp, reqs, t, last).units == t.units + RequirementUnits * (|m| - |t.matched|) + AnswerFindings(nlp, last).units;
    assert Credited(|m|, before) == Credited(|t.matched|, before) + RequirementUnits * (|m| - |t.matched|);
  }

  /** One more answer appends its strong points and gaps. */
  lemma TallyStepRemarks(nlp: Nlp, reqs: seq<string>, t: Tally, answers: seq<AnswerRecord>)
    requires answers != []
    requires forall x :: x in t.strong <==> Any(answers[..|answers| - 1], StrongTest(nlp, x))
    requires forall x :: x in t.gaps <==> Any(answers[..|answers| - 1], GapTest(nlp, x))
    ensures var t' := TallyStep(nlp, reqs, t, answers[|answers| - 1]);
            && (forall x :: x in t'.strong <==> Any(answers, StrongTest(nlp, x)))
            && (forall x :: x in t'.gaps <==> Any(answers, GapTest(nlp, x)))
  {
    var f := AnswerFindings(nlp, answers[|answers| - 1]);
    assert TallyStep(nlp, reqs, t, answers[|answers| - 1]).strong == t.strong + f.strong;
    assert TallyStep(nlp, reqs, t, answers[|answers| - 1]).gaps == t.gaps + f.gaps;
    forall x
      ensures (x in t.strong + f.strong <==> Any(answers, StrongTest(nlp, x)))
              && (x in t.gaps + f.gaps <==> Any(answers, GapTest(nlp, x)))
    {
      AnySnoc(answers, StrongTest(nlp, x));
      AnySnoc(answers, GapTest(nlp, x));
    }
  }

  lemma TallyStepAt(nlp: Nlp, reqs: seq<string>, answers: seq<AnswerRecord>, i: nat)
    requires i < |answers|
    ensures TallyAnswers(nlp, reqs, answers[..i + 1]) == TallyStep(nlp, reqs, TallyAnswers(nlp, reqs, answers[..i]), answers[i])
  {
    assert answers[..i + 1][..i] == answers[..i];
  }

  /** `[req for req in reqs if req not in set(matched)]`. */
  function Unmatched(reqs: seq<string>, matched: seq<string>): seq<string> {
    Select(req => req !in matched, reqs)
  }

  datatype InterviewReport = InterviewReport(
    score: nat,
    matched: seq<string>,
    missing: seq<string>,
    strongPoints: seq<Remark>,
    gaps: seq<Remark>)

  /** max_possible in units of 0.2: answers × (0.6 × distinct requirements + 0.4). */
  function MaxUnits(answers: nat, reqs: seq<string>): nat {
    answers * (RequirementUnits * |LemmaSet(reqs)| + 2)
  }

  /** `round(score / max_possible * 100, 1)`, or 0.0 when the maximum is 0. */
  function RatioScore(units: nat, maxUnits: nat): nat {
    if maxUnits == 0 then 0 else RoundHalfEven(Full * units, maxUnits)
  }

  /** What analyze_interview returns; `fault` is an exception escaping the body. */
  function InterviewAnalysis(nlp: Nlp, answers: seq<AnswerRecord>, v: Vacancy, fault: bool): InterviewReport {
    if fault then InterviewReport(0, [], v.requirements, [], [AnalysisFailed])
    else
      var t := TallyAnswers(nlp, v.requirements, answers);
      var maxUnits := MaxUnits(|answers|, v.requirements);
      InterviewReport(
        RatioScore(t.units, maxUnits),
        t.matched,
        Unmatched(v.requirements, t.matched),
        Dedup(t.strong),
        Dedup(t.gaps))
  }

  /** The score bound as arithmetic: credit within the maximum gives at most 100.0. */
  lemma ScoreWithinMaximum(units: nat, matched: nat, n: nat, reqs: seq<string>)
    requires matched <= |LemmaSet(reqs)|
    requires units <= RequirementUnits * matched + 2 * n
    ensures RatioScore(units, MaxUnits(n, reqs)) <= Full
  {
    if n > 0 {
      var k := |LemmaSet(reqs)|;
      UnitsWithinMaximum(units, matched, n, k);
      assert MaxUnits(n, reqs) == n * (RequirementUnits * k + 2);
      RatioWithinFull(units, n * (RequirementUnits * k + 2));
    }
  }

  /** A credit within an answer count's maximum: matched requirements count once, not once per answer. */
  lemma UnitsWithinMaximum(units: nat, matched: nat, n: nat, k: nat)
    requires n > 0 && matched <= k
    requires units <= RequirementUnits * matched + 2 * n
    ensures units <= n * (RequirementUnits * k + 2)
  {
    MulMono(1, n, RequirementUnits * k);
    assert n * (RequirementUnits * k + 2) == n * (RequirementUnits * k) + 2 * n;
  }

  lemma RatioWithinFull(units: nat, den: nat)
    requires 0 < den && units <= den
    ensures RatioScore(units, den) <= Full
  {
    MulMono(units, den, Full);
    assert Full * units <= Full * den;
  }

  lemma InterviewScoreBounded(nlp: Nlp, answers: seq<AnswerRecord>, v: Vacancy, fault: bool)
    ensures InterviewAnalysis(nlp, answers, v, fault).score <= Full
  {
    if !fault {
      var reqs := v.requirements;
      var t := TallyAnswers(nlp, reqs, answers);
      DistinctWithin(t.matched, reqs);
      ScoreWithinMaximum(t.units, |t.matched|, |answers|, reqs);
    }
  }

  /** A duplicate-free list drawn from `reqs` is no longer than the number of distinct requirements. */
  lemma DistinctWithin(matched: seq<string>, reqs: seq<string>)
    requires Distinct(matched) && forall x :: x in matched ==> x in reqs
    ensures |matched| <= |LemmaSet(reqs)|
  {
    DistinctCard(matched);
    SubsetCard(LemmaSet(matched), LemmaSet(reqs));
  }

  lemma SubsetCard(a: set<string>, b: set<string>)
    requires a <= b
    ensures |a| <= |b|
  {
    assert b == a + (b - a);
  }

  /**
   * The interview report: matched holds no duplicates and exactly the
   * vacancy requirements some answer meets; missing holds the other
   * requirements in vacancy order, each as often as the vacancy lists it;
   * strong points and gaps are duplicate-free and hold exactly the remarks
   * some answer raises; the score is the credit (0.6 per matched
   * requirement and 0.2 per relevant or specific answer) over the maximum,
   * at most 100.0, and 0.0 when there are no answers.
   */
  lemma InterviewReportFacts(nlp: Nlp, answers: seq<AnswerRecord>, v: Vacancy)
    ensures var r := InterviewAnalysis(nlp, answers, v, false);
            && Distinct(r.matched)
            && (forall x :: x in r.matched <==> x in v.requirements && Any(answers, MeetsTest(nlp, x)))
            && (forall x :: x in r.missing <==> x in v.requirements && x !in r.matched)
            && IsSubseq(r.missing, v.requirements)
            && (forall x :: multiset(r.missing)[x] == if x in r.matched then 0 else multiset(v.requirements)[x])
            && Distinct(r.strongPoints) && (forall x :: x in r.strongPoints <==> Any(answers, StrongTest(nlp, x)))
            && Distinct(r.gaps) && (forall x :: x in r.gaps <==> Any(answers, GapTest(nlp, x)))
            && r.score == RatioScore(Credited(|r.matched|, FindingsUnits(nlp, answers)), MaxUnits(|answers|, v.requirements))
            && r.score <= Full
            && (answers == [] ==> r.score == 0 && r.missing == v.requirements)
  {
    var t := TallyAnswers(nlp, v.requirements, answers);
    InterviewScoreIs(nlp, answers, v);
    UnmatchedFacts(v.requirements, t.matched);
    InterviewScoreBounded(nlp, answers, v, false);
  }

  lemma InterviewScoreIs(nlp: Nlp, answers: seq<AnswerRecord>, v: Vacancy)
    ensures var r := InterviewAnalysis(nlp, answers, v, false);
            r.score == RatioScore(Credited(|r.matched|, FindingsUnits(nlp, answers)), MaxUnits(|answers|, v.requirements))
  {
    var t := TallyAnswers(nlp, v.requirements, answers);
    assert InterviewAnalysis(nlp, answers, v, false).matched == t.matched;
  }

  /**
   * The requirements left unmatched: exactly those not in the matched
   * list, in their order and multiplicity; all of them when nothing matched.
   */
  lemma UnmatchedFacts(reqs: seq<string>, matched: seq<string>)
    ensures var u := Unmatched(reqs, matched);
            && (forall x :: x in u <==> x in reqs && x !in matched)
            && IsSubseq(u, reqs)
            && (forall x :: multiset(u)[x] == if x in matched then 0 else multiset(reqs)[x])
            && (matched == [] ==> u == reqs)
  {
    var keep := req => req !in matched;
    assert Unmatched(reqs, matched) == Select(keep, reqs);
    forall x ensures x in Select(keep, reqs) <==> x in reqs && x !in matched {
      SelectRejectMembers(keep, reqs, x);
    }
    forall x ensures multiset(Select(keep, reqs))[x] == if x in matched then 0 else multiset(reqs)[x] {
      SelectCount(keep, reqs, x);
    }
    SelectRejectOrder(keep, reqs);
    if matched == [] {
      SelectAll(keep, reqs);
    }
  }

  /** The two tests of one requirement against an answer. */
  method Heard(nlp: Nlp, ansLemmas: set<string>, text: string, req: string) returns (found: bool)
    ensures found == RequirementHeard(nlp, ansLemmas, text, req)
  {
    var reqLemmas := NormalizeText(nlp.lemmatize, req);
    found := ansLemmas * LemmaSet(reqLemmas) != {} || SemanticMatch(nlp.embedder, req, text, AnswerThreshold);
  }

  /** The requirement scan for one answer (the inner loop of analyze_interview). */
  method CreditAnswer(nlp: Nlp, reqs: seq<string>, text: string, ansLemmas: set<string>, matched: seq<string>)
    returns (m: seq<string>, gained: nat)
    ensures m == Credit(HeardTest(nlp, ansLemmas, text), reqs, matched)
    ensures gained == RequirementUnits * (|m| - |matched|)
  {
    ghost var heard := HeardTest(nlp, ansLemmas, text);
    m, gained := matched, 0;
    for j := 0 to |reqs|
      invariant m == Credit(heard, reqs[..j], matched)
      invariant gained == RequirementUnits * (|m| - |matched|)
    {
      CreditStep(heard, reqs, matched, j);
      var found := Heard(nlp, ansLemmas, text, reqs[j]);
      if found && reqs[j] !in m {
        m := m + [reqs[j]];
        gained := gained + RequirementUnits;
      }
    }
    assert reqs[..|reqs|] == reqs;
  }

  /** The requirement scan of one answer, on its stripped text and lemmas. */
  method MatchRequirements(nlp: Nlp, reqs: seq<string>, ans: AnswerRecord, matched: seq<string>)
    returns (m: seq<string>, gained: nat)
    ensures m == Credit(AnswerTest(nlp, ans), reqs, matched)
    ensures gained == RequirementUnits * (|m| - |matched|)
  {
    var text := Strip(ans.answer);
    var ansLemmas := NormalizeText(nlp.lemmatize, text);
    m, gained := CreditAnswer(nlp, reqs, text, LemmaSet(ansLemmas), matched);
  }

  /** One pass of analyze_interview's answer loop. */
  method ScoreAnswer(nlp: Nlp, reqs: seq<string>, t: Tally, ans: AnswerRecord) returns (t': Tally)
    ensures t' == TallyStep(nlp, reqs, t, ans)
  {
    var matched, gained := MatchRequirements(nlp, reqs, ans, t.matched);
    var f := AnswerFindings(nlp, ans);
    t' := Accumulate(t, matched, gained, f);
  }

  /** analyze_interview. */
  method AnalyzeInterview(nlp: Nlp, answers: seq<AnswerRecord>, v: Vacancy, fault: bool) returns (r: InterviewReport)
    ensures r == InterviewAnalysis(nlp, answers, v, fault)
    ensures fault ==> r.score == 0 && r.matched == [] && r.missing == v.requirements && r.gaps == [AnalysisFailed]
  {
    if fault {
      return InterviewReport(0, [], v.requirements, [], [AnalysisFailed]);
    }
    var reqs := v.requirements;
    var t := Tally([], 0, [], []);
    for i := 0 to |answers|
      invariant t == TallyAnswers(nlp, reqs, answers[..i])
    {
      TallyStepAt(nlp, reqs, answers, i);
      t := ScoreAnswer(nlp, reqs, t, answers[i]);
    }
    assert answers[..|answers|] == answers;
    var maxUnits := MaxUnits(|answers|, reqs);
    var score := RatioScore(t.units, maxUnits);
    r := InterviewReport(score, t.matched, Unmatched(reqs, t.matched), Dedup(t.strong), Dedup(t.gaps));
  }
}

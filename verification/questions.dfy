/**
 * Question clean-up and generation (interview_helper.py). The language
 * model is an oracle from the prompt to a completion or a raised error;
 * `random.choice` is a draw supplied by the caller.
 */
module QuestionGen {
  import opened Wrappers
  import opened Text
  import opened Domain

  // ---------------------------------------------------------------------------
  // normalize_question_text

  /**
   * The headings the model sometimes puts before a question ("Примеры
   * вопросов", "Вопрос:", "Example questions:"), lower-cased, since they are
   * matched ignoring case.
   */
  const Labels: seq<string> := ["примеры вопросов", "вопрос:", "example questions:"]

  /** `t` starts with the lower-case heading `head`, ignoring case. */
  predicate StartsWithLabel(t: string, head: string) {
    |head| <= |t| && Lower(t[..|head|]) == head
  }

  /** The heading `head`, which `t` starts with, and the whitespace after it removed. */
  function DropHeading(t: string, head: string): (r: string)
    requires StartsWithLabel(t, head)
    ensures |r| <= |t| - |head| && r == t[|t| - |r|..]
    ensures forall i :: |head| <= i < |t| - |r| ==> IsSpace(t[i])
    ensures r == [] || !IsSpace(r[0])
  {
    TrimLeft(t[|head|..])
  }

  /** A heading was removed from `t` to leave `r`. */
  predicate HeadingDropped(t: string, r: string) {
    exists head :: head in Labels && StartsWithLabel(t, head)
                   && |head| <= |t| - |r| && forall i :: |head| <= i < |t| - |r| ==> IsSpace(t[i])
  }

  lemma HeadingWitness(t: string, head: string)
    requires head in Labels && StartsWithLabel(t, head)
    ensures HeadingDropped(t, DropHeading(t, head))
  {
  }

  /**
   * `re.sub(r"^(Примеры вопросов|Вопрос:|Example questions:)\s*", "", t,
   * flags=re.IGNORECASE)`: one leading heading and the whitespace after it.
   */
  function DropLabel(t: string): (r: string)
    ensures |r| <= |t| && r == t[|t| - |r|..]
    ensures r != t ==> HeadingDropped(t, r)
  {
    var k := LabelAt(t);
    if k < |Labels| then
      HeadingWitness(t, Labels[k]);
      DropHeading(t, Labels[k])
    else t
  }

  /**
   * The heading is removed exactly when the text starts with one, and what
   * is left then starts with something other than whitespace.
   */
  lemma DropLabelHeading(t: string)
    ensures HasHeading(t) ==> DropLabel(t) != t && (DropLabel(t) == [] || !IsSpace(DropLabel(t)[0]))
    ensures !HasHeading(t) ==> DropLabel(t) == t
  {
    var k := LabelAt(t);
    LabelAtFinds(t);
    if k < |Labels| {
      assert |Labels[k]| > 0;
      assert DropLabel(t) == DropHeading(t, Labels[k]);
    }
  }

  /** `t` starts with one of the headings, ignoring case. */
  predicate HasHeading(t: string) {
    exists head :: head in Labels && StartsWithLabel(t, head)
  }

  /** The alternation finds a heading exactly when the text starts with one. */
  lemma LabelAtFinds(t: string)
    ensures LabelAt(t) < |Labels| <==> HasHeading(t)
  {
    var k := LabelAt(t);
    if k < |Labels| {
      assert Labels[k] in Labels;
    } else {
      forall head | head in Labels
        ensures !StartsWithLabel(t, head)
      {
        assert head == Labels[0] || head == Labels[1] || head == Labels[2];
      }
    }
  }

  /** The index of the first heading `t` starts with, or |Labels| when none (the regex alternation). */
  function LabelAt(t: string): (k: nat)
    ensures k <= |Labels|
    ensures k < |Labels| ==> StartsWithLabel(t, Labels[k])
    ensures forall j :: 0 <= j < k && j < |Labels| ==> !StartsWithLabel(t, Labels[j])
  {
    if StartsWithLabel(t, Labels[0]) then 0
    else if StartsWithLabel(t, Labels[1]) then 1
    else if StartsWithLabel(t, Labels[2]) then 2
    else 3
  }

  /** The characters of the class `[\-\*\d\.\)]`. */
  predicate IsMarker(c: char) {
    c == '-' || c == '*' || IsDigit(c) || c == '.' || c == ')'
  }

  /** `re.sub(r"^[\-\*\d\.\)]\s*", "", t)`: one list marker and the whitespace after it. */
  function DropMarker(t: string): (r: string)
    ensures |r| <= |t| && r == t[|t| - |r|..]
    ensures r != t ==> IsMarker(t[0]) && forall i :: 1 <= i < |t| - |r| ==> IsSpace(t[i])
    ensures t != [] && IsMarker(t[0]) ==> r != t && (r == [] || !IsSpace(r[0]))
  {
    if t != [] && IsMarker(t[0]) then TrimLeft(t[1..]) else t
  }

  /** `t.split("?")[0] + "?"` when `t` holds a '?', else `t`. */
  function CutAtQuestionMark(t: string): (r: string)
    ensures '?' in t ==> r == t[..IndexOf(t, '?') + 1]
    ensures '?' !in t ==> r == t
  {
    if '?' in t then t[..IndexOf(t, '?')] + "?" else t
  }

  /** normalize_question_text: the result carries no surrounding whitespace. */
  function NormalizeQuestion(raw: string): (r: string)
    ensures r == [] || (!IsSpace(r[0]) && !IsSpace(r[|r| - 1]))
  {
    Strip(CutAtQuestionMark(DropMarker(DropLabel(Strip(raw)))))
  }

  /** No heading holds a '?', so neither does a prefix of `t` that matches one. */
  lemma HeadingHasNoQuestionMark(t: string, head: string, k: nat)
    requires head in Labels && StartsWithLabel(t, head) && k < |head|
    ensures t[k] != '?'
  {
    assert '?' !in head;
    assert head[k] == LowerChar(t[k]);
  }

  /** Dropping a heading and the whitespace after it removes no '?'. */
  lemma DroppedPartHasNoQuestionMark(t: string, l: string, k: nat)
    requires |l| <= |t| && k < |t| - |l| && HeadingDropped(t, l)
    ensures t[k] != '?'
  {
    var head :| head in Labels && StartsWithLabel(t, head)
                && |head| <= |t| - |l| && forall i :: |head| <= i < |t| - |l| ==> IsSpace(t[i]);
    HeadingOrSpace(t, head, |t| - |l|, k);
  }

  /** Below `hi`, `t` is the heading `head` followed by whitespace, so no '?'. */
  lemma HeadingOrSpace(t: string, head: string, hi: nat, k: nat)
    requires head in Labels && StartsWithLabel(t, head) && |head| <= hi <= |t| && k < hi
    requires forall i :: |head| <= i < hi ==> IsSpace(t[i])
    ensures t[k] != '?'
  {
    if k < |head| {
      HeadingHasNoQuestionMark(t, head, k);
    } else {
      SpaceIsNoQuestionMark(t, |head|, hi, k);
    }
  }

  lemma SpaceIsNoQuestionMark(t: string, lo: nat, hi: nat, k: nat)
    requires lo <= k < hi <= |t| && forall i :: lo <= i < hi ==> IsSpace(t[i])
    ensures t[k] != '?'
  {
    assert IsSpace(t[k]);
  }

  /** A heading holds no '?', so dropping one keeps every '?'. */
  lemma DropLabelKeepsQuestionMarks(t: string)
    ensures '?' in DropLabel(t) <==> '?' in t
  {
    var l := DropLabel(t);
    if l != t {
      forall k | 0 <= k < |t| - |l|
        ensures t[k] != '?'
      {
        DroppedPartHasNoQuestionMark(t, l, k);
      }
    }
    SuffixKeepsQuestionMarks(t, l);
  }

  /** A marker is no '?', so dropping one keeps every '?'. */
  lemma DropMarkerKeepsQuestionMarks(t: string)
    ensures '?' in DropMarker(t) <==> '?' in t
  {
    var m := DropMarker(t);
    if m != t {
      forall k | 0 <= k < |t| - |m|
        ensures t[k] != '?'
      {
        if k > 0 {
          assert IsSpace(t[k]);
        }
      }
    }
    SuffixKeepsQuestionMarks(t, m);
  }

  /** Cutting off a front part with no '?' keeps every '?'. */
  lemma SuffixKeepsQuestionMarks(t: string, r: string)
    requires |r| <= |t| && r == t[|t| - |r|..]
    requires forall k :: 0 <= k < |t| - |r| ==> t[k] != '?'
    ensures '?' in r <==> '?' in t
  {
    var d := |t| - |r|;
    if '?' in t {
      var k := IndexOf(t, '?');
      assert k >= d;
      assert r[k - d] == '?';
    }
    if '?' in r {
      var k := IndexOf(r, '?');
      assert t[d + k] == '?';
    }
  }

  /** Stripping removes whitespace only, so it keeps every '?'. */
  lemma StripKeepsQuestionMarks(s: string)
    ensures '?' in Strip(s) <==> '?' in s
  {
    var r := Strip(s);
    var j := LeadingSpaces(s);
    assert StrippedAt(s, r, j);
    if '?' in s {
      var k := IndexOf(s, '?');
      assert !IsSpace(s[k]);
      assert j <= k < j + |r|;
      assert r[k - j] == s[k];
    }
    if '?' in r {
      var k := IndexOf(r, '?');
      assert s[j + k] == r[k];
    }
  }

  /** Cutting after the first '?' leaves a prefix that ends in its only '?'. */
  lemma CutShape(m: string)
    ensures var c := CutAtQuestionMark(m);
            && |c| <= |m| && c == m[..|c|]
            && ('?' in c <==> '?' in m)
            && ('?' in c ==> c[|c| - 1] == '?' && '?' !in c[..|c| - 1])
  {
    if '?' in m {
      var k := IndexOf(m, '?');
      assert m[..k + 1][..k] == m[..k];
    }
  }

  /** A text that ends in its only '?' keeps that shape when stripped. */
  lemma StripKeepsEndingMark(c: string)
    requires c != [] && c[|c| - 1] == '?' && '?' !in c[..|c| - 1]
    ensures var r := Strip(c); r != [] && r[|r| - 1] == '?' && '?' !in r[..|r| - 1]
  {
    var r := Strip(c);
    var i := LeadingSpaces(c);
    assert !IsSpace(c[|c| - 1]);
    assert i + |r| == |c|;
    assert r[..|r| - 1] == c[i..|c| - 1];
  }

  lemma InfixTrans(a: string, b: string, c: string, i: int, j: int)
    requires InfixAt(a, b, i) && InfixAt(b, c, j)
    ensures InfixAt(a, c, i + j)
  {
    forall k | 0 <= k < |c|
      ensures a[i + j + k] == c[k]
    {
      assert b[j + k] == c[k];
    }
  }

  /** `r` ends with a '?' and holds no other. */
  predicate EndsAtOnlyQuestionMark(r: string) {
    r != [] && r[|r| - 1] == '?' && '?' !in r[..|r| - 1]
  }

  /** The cleaned question holds a '?' exactly when the raw completion does. */
  lemma NormalizeKeepsQuestionMark(raw: string)
    ensures '?' in NormalizeQuestion(raw) <==> '?' in raw
  {
    var s := Strip(raw);
    var l := DropLabel(s);
    var m := DropMarker(l);
    var c := CutAtQuestionMark(m);
    assert NormalizeQuestion(raw) == Strip(c);
    StripKeepsQuestionMarks(raw);
    DropLabelKeepsQuestionMarks(s);
    DropMarkerKeepsQuestionMarks(l);
    CutShape(m);
    StripKeepsQuestionMarks(c);
  }

  /** When the raw completion holds a '?', the cleaned question ends with it and holds no other. */
  lemma NormalizeEndsAtQuestionMark(raw: string)
    ensures '?' in raw ==> EndsAtOnlyQuestionMark(NormalizeQuestion(raw))
  {
    var s := Strip(raw);
    var l := DropLabel(s);
    var m := DropMarker(l);
    var c := CutAtQuestionMark(m);
    assert NormalizeQuestion(raw) == Strip(c);
    StripKeepsQuestionMarks(raw);
    DropLabelKeepsQuestionMarks(s);
    DropMarkerKeepsQuestionMarks(l);
    CutShape(m);
    if '?' in c {
      StripKeepsEndingMark(c);
    }
  }

  /** `r` occurs somewhere in `s`. */
  ghost predicate PieceOf(s: string, r: string) {
    exists i :: InfixAt(s, r, i)
  }

  /** A piece of a piece of `s` is a piece of `s`. */
  lemma PieceTrans(s: string, t: string, r: string, j: int)
    requires PieceOf(s, t) && InfixAt(t, r, j)
    ensures PieceOf(s, r)
  {
    var i :| InfixAt(s, t, i);
    InfixTrans(s, t, r, i, j);
  }

  lemma SuffixIsPiece(t: string, r: string)
    requires |r| <= |t| && r == t[|t| - |r|..]
    ensures InfixAt(t, r, |t| - |r|)
  {
  }

  /** A suffix of a piece of `s` is a piece of `s`. */
  lemma SuffixStep(s: string, t: string, r: string)
    requires PieceOf(s, t) && |r| <= |t| && r == t[|t| - |r|..]
    ensures PieceOf(s, r)
  {
    SuffixIsPiece(t, r);
    PieceTrans(s, t, r, |t| - |r|);
  }

  /** The cleaned question is a piece of the raw completion: nothing is added. */
  lemma NormalizeQuestionInfix(raw: string)
    ensures PieceOf(raw, NormalizeQuestion(raw))
  {
    var s := Strip(raw);
    assert InfixAt(raw, s, LeadingSpaces(raw));
    var l := DropLabel(s);
    SuffixStep(raw, s, l);
    var m := DropMarker(l);
    SuffixStep(raw, l, m);
    var c := CutAtQuestionMark(m);
    CutShape(m);
    PieceTrans(raw, m, c, 0);
    PieceTrans(raw, c, Strip(c), LeadingSpaces(c));
  }

  /**
   * A question already in clean form (no surrounding whitespace, no
   * heading, no list marker, and either no '?' or a single final one) is
   * left as it is.
   */
  lemma NormalizeQuestionFixpoint(q: string)
    requires q == [] || (!IsSpace(q[0]) && !IsSpace(q[|q| - 1]))
    requires LabelAt(q) == |Labels|
    requires q == [] || !IsMarker(q[0])
    requires '?' in q ==> EndsAtOnlyQuestionMark(q)
    ensures NormalizeQuestion(q) == q
  {
    assert TrimLeft(q) == q;
    assert TrimRight(q) == q;
    assert Strip(q) == q;
    assert DropLabel(q) == q;
    assert DropMarker(q) == q;
    if '?' in q {
      var k := IndexOf(q, '?');
      assert k == |q| - 1;
      assert q[..k + 1] == q;
    }
    assert CutAtQuestionMark(q) == q;
  }

  /** Every heading starts with a letter, so a text that starts with a list marker starts with none. */
  lemma MarkerStartsNoHeading(t: string)
    requires t != [] && IsMarker(t[0])
    ensures DropLabel(t) == t
  {
    assert Labels[0][0] == 'п' && Labels[1][0] == 'в' && Labels[2][0] == 'e';
    assert LowerChar(t[0]) == t[0];
    assert LabelAt(t) == |Labels|;
  }

  /** A text whose first and last characters are not whitespace is its own strip. */
  lemma StripUnchanged(t: string)
    requires t != [] && !IsSpace(t[0]) && !IsSpace(t[|t| - 1])
    ensures LeadingSpaces(t) == 0 && Strip(t) == t
  {
    assert TrimLeft(t) == t;
  }

  /** A text whose only '?' is its last character is not cut. */
  lemma CutUnchanged(t: string)
    requires t != [] && t[|t| - 1] == '?' && '?' !in t[..|t| - 1]
    ensures CutAtQuestionMark(t) == t
  {
    var k := IndexOf(t, '?');
    assert t[..k + 1] == t;
  }

  /**
   * Cleaning is not idempotent: the marker class matches one character, so
   * a numbered completion "1. text?" loses only its digit and cleans to
   * ". text?", which a second cleaning turns into "text?".
   */
  lemma NormalizeQuestionTwice(d: char, w: string)
    requires IsDigit(d) && w != [] && !IsSpace(w[0]) && '?' !in w
    ensures var q := w + "?";
            var once := ". " + q;
            && NormalizeQuestion([d] + once) == once
            && NormalizeQuestion(once) == q
            && NormalizeQuestion(NormalizeQuestion([d] + once)) != NormalizeQuestion([d] + once)
  {
    CleanNumbered(d, w);
    CleanDotted(w);
    assert |". " + w + "?"| == |w + "?"| + 2;
  }

  /** A numbered question "d. text?" loses its digit only. */
  lemma CleanNumbered(d: char, w: string)
    requires IsDigit(d) && w != [] && !IsSpace(w[0]) && '?' !in w
    ensures NormalizeQuestion([d] + (". " + (w + "?"))) == ". " + (w + "?")
  {
    var q := w + "?";
    var once := ". " + q;
    var raw := [d] + once;
    assert once == TrimLeft(raw[1..]) by {
      assert raw[1..] == once;
      assert TrimLeft(once) == once;
    }
    assert '?' !in once[..|once| - 1] by {
      assert once[..|once| - 1] == ". " + w;
    }
    CleanAfterMarker(raw, once);
  }

  /** A question left as ". text?" loses its dot and the space after it. */
  lemma CleanDotted(w: string)
    requires w != [] && !IsSpace(w[0]) && '?' !in w
    ensures NormalizeQuestion(". " + (w + "?")) == w + "?"
  {
    var q := w + "?";
    DotSpaceTrimmed(q);
    assert q[..|q| - 1] == w;
    CleanAfterMarker(". " + q, q);
  }

  /** After ". " the whitespace removal stops at the first non-space character. */
  lemma DotSpaceTrimmed(q: string)
    requires q != [] && !IsSpace(q[0])
    ensures TrimLeft((". " + q)[1..]) == q
  {
    DropFirst(". ", q);
    DropFirst(" ", q);
    assert TrimLeft(q) == q;
  }

  /**
   * A text with no surrounding whitespace that starts with a marker, and
   * whose only '?' ends what follows the marker's whitespace, cleans to
   * exactly that rest.
   */
  lemma CleanAfterMarker(raw: string, rest: string)
    requires raw != [] && !IsSpace(raw[0]) && !IsSpace(raw[|raw| - 1]) && IsMarker(raw[0])
    requires rest == TrimLeft(raw[1..]) && rest != [] && rest[|rest| - 1] == '?' && '?' !in rest[..|rest| - 1]
    ensures NormalizeQuestion(raw) == rest
  {
    MarkerCleaned(raw);
    CutAndStripUnchanged(rest);
  }

  /** Of a stripped text that starts with a marker, the first three steps leave what follows the marker's whitespace. */
  lemma MarkerCleaned(raw: string)
    requires raw != [] && !IsSpace(raw[0]) && !IsSpace(raw[|raw| - 1]) && IsMarker(raw[0])
    ensures DropMarker(DropLabel(Strip(raw))) == TrimLeft(raw[1..])
  {
    StripUnchanged(raw);
    MarkerStartsNoHeading(raw);
  }

  /** A text with no surrounding whitespace whose only '?' is its last character survives the last two steps. */
  lemma CutAndStripUnchanged(rest: string)
    requires rest != [] && !IsSpace(rest[0]) && rest[|rest| - 1] == '?' && '?' !in rest[..|rest| - 1]
    ensures Strip(CutAtQuestionMark(rest)) == rest
  {
    CutUnchanged(rest);
    StripUnchanged(rest);
  }

  // ---------------------------------------------------------------------------
  // ai_generate_question

  /**
   * What the language model is asked: the vacancy, the last twelve lines of
   * the dialogue and of the questions already asked (or the placeholders
   * for none), the previous answer, and how many "ask something else"
   * notes the retries have appended.
   */
  datatype Prompt = Prompt(
    title: string,
    requirements: string,
    duties: string,
    dialogue: string,
    previousQuestions: string,
    previousAnswer: string,
    retryNotes: nat)

  /** A completion's raw text, or the call raised. */
  datatype LlmReply = Completion(raw: string) | LlmRaises

  type Llm = Prompt -> LlmReply

  /** The number of past lines the prompt shows. */
  const PromptWindow: nat := 12

  /** The prompt of the first attempt. */
  function BasePrompt(v: Vacancy, history: seq<string>, asked: seq<string>, previousAnswer: string): (p: Prompt)
    ensures p.retryNotes == 0
    ensures p.title == v.title && p.previousAnswer == previousAnswer
    ensures history == [] ==> p.dialogue == "Диалог ещё не начат."
    ensures |history| <= PromptWindow && history != [] ==> p.dialogue == Join("\n", history)
    ensures |history| > PromptWindow ==> p.dialogue == Join("\n", history[|history| - PromptWindow..])
    ensures asked == [] ==> p.previousQuestions == "Нет"
    ensures |asked| <= PromptWindow && asked != [] ==> p.previousQuestions == Join("\n", asked)
    ensures |asked| > PromptWindow ==> p.previousQuestions == Join("\n", asked[|asked| - PromptWindow..])
  {
    Prompt(
      v.title,
      Join(", ", v.requirements),
      Join(", ", v.duties),
      Recent(history, "Диалог ещё не начат."),
      Recent(asked, "Нет"),
      previousAnswer,
      0)
  }

  /** The last `PromptWindow` lines joined by newlines, or `placeholder` when there are none. */
  function Recent(lines: seq<string>, placeholder: string): (s: string)
    ensures lines == [] ==> s == placeholder
    ensures |lines| <= PromptWindow && lines != [] ==> s == Join("\n", lines)
    ensures |lines| > PromptWindow ==> s == Join("\n", lines[|lines| - PromptWindow..])
  {
    if lines == [] then placeholder else Join("\n", LastN(lines, PromptWindow))
  }

  /** The acceptance test of a cleaned completion. */
  predicate Acceptable(text: string, asked: seq<string>) {
    text != "" && text !in asked && |text| > 5 && EndsWith(text, "?")
  }

  /** The question the attempts produced, if any, and how many model calls they made. */
  datatype Generation = Generation(question: Option<string>, calls: nat)

  /**
   * The attempts from attempt `k` on (at most three in all): a raised call
   * ends them at once; a completion whose cleaned text passes the test is
   * the question; any other completion adds a retry note and tries again.
   */
  function Attempts(llm: Llm, base: Prompt, asked: seq<string>, k: nat): (g: Generation)
    requires k <= 3
    ensures g.calls <= 3 - k
    ensures k < 3 ==> g.calls >= 1
    ensures g.question.Some? ==> Acceptable(g.question.value, asked)
    ensures k < 3 && llm(base.(retryNotes := k)).LlmRaises? ==> g == Generation(None, 1)
    decreases 3 - k
  {
    if k == 3 then Generation(None, 0)
    else
      match llm(base.(retryNotes := k))
      case LlmRaises => Generation(None, 1)
      case Completion(raw) =>
        var text := NormalizeQuestion(raw);
        if Acceptable(text, asked) then Generation(Some(text), 1)
        else
          var rest := Attempts(llm, base, asked, k + 1);
          Generation(rest.question, rest.calls + 1)
  }

  /** A cleaned completion that passes the test ends with its only '?'. */
  lemma AcceptedShape(raw: string, asked: seq<string>)
    requires Acceptable(NormalizeQuestion(raw), asked)
    ensures EndsAtOnlyQuestionMark(NormalizeQuestion(raw))
  {
    var text := NormalizeQuestion(raw);
    assert text[|text| - 1] == '?';
    NormalizeKeepsQuestionMark(raw);
    NormalizeEndsAtQuestionMark(raw);
  }

  /** A question the model produced holds exactly one '?', at its end. */
  lemma {:induction false} AttemptsShape(llm: Llm, base: Prompt, asked: seq<string>, k: nat)
    requires k <= 3
    ensures var g := Attempts(llm, base, asked, k);
            g.question.Some? ==> EndsAtOnlyQuestionMark(g.question.value)
    decreases 3 - k
  {
    if k < 3 {
      match llm(base.(retryNotes := k))
      case LlmRaises =>
      case Completion(raw) =>
        if Acceptable(NormalizeQuestion(raw), asked) {
          AcceptedShape(raw, asked);
        } else {
          AttemptsShape(llm, base, asked, k + 1);
        }
    }
  }

  /**
   * The fallback candidates: the bank's questions not yet asked, or the
   * whole bank when every one of them was.
   */
  function FallbackPool(bank: seq<string>, asked: seq<string>): (pool: seq<string>)
    ensures forall q :: q in pool ==> q in bank
    ensures (exists q :: q in bank && q !in asked) ==> forall q :: q in pool ==> q !in asked
    ensures forall q :: q in pool <==> q in bank && (q !in asked || forall p :: p in bank ==> p in asked)
    ensures pool == [] <==> bank == []
  {
    var unasked := Select(q => q !in asked, bank);
    forall q ensures q in unasked <==> q in bank && q !in asked {
      SelectRejectMembers(q => q !in asked, bank, q);
    }
    if unasked != [] then
      assert unasked[0] in bank && unasked[0] !in asked;
      unasked
    else
      assert forall p :: p in bank ==> p in asked;
      bank
  }

  /** `random.choice` on an empty list raises IndexError. */
  datatype GenerationError = EmptyQuestionBank

  /**
   * What ai_generate_question returns, with asked_questions after the call.
   * `draw` is the random choice: the pick is the candidate at `draw` modulo
   * their number, so every candidate can be picked.
   */
  function Generated(v: Vacancy, history: seq<string>, asked: seq<string>, previousAnswer: string, llm: Llm, draw: nat)
    : (r: (Result<string, GenerationError>, seq<string>))
    ensures r.0.Ok? ==> r.1 == asked + [r.0.value]
    ensures r.0.Err? <==> v.questions == [] && Attempts(llm, BasePrompt(v, history, asked, previousAnswer), asked, 0).question.None?
    ensures r.0.Err? ==> r.1 == asked
  {
    var g := Attempts(llm, BasePrompt(v, history, asked, previousAnswer), asked, 0);
    if g.question.Some? then (Ok(g.question.value), asked + [g.question.value])
    else
      var pool := FallbackPool(v.questions, asked);
      if pool == [] then (Err(EmptyQuestionBank), asked)
      else
        var pick := pool[draw % |pool|];
        (Ok(pick), asked + [pick])
  }

  /**
   * The question returned is new unless the bank is exhausted: a model
   * question passed the test, and a fallback comes from the unasked part of
   * the bank whenever there is one. A fallback is always a bank question.
   */
  lemma GeneratedFresh(v: Vacancy, history: seq<string>, asked: seq<string>, previousAnswer: string, llm: Llm, draw: nat)
    ensures var r := Generated(v, history, asked, previousAnswer, llm, draw);
            var g := Attempts(llm, BasePrompt(v, history, asked, previousAnswer), asked, 0);
            && (g.question.Some? ==> r.0 == Ok(g.question.value) && Acceptable(r.0.value, asked))
            && (g.question.None? && r.0.Ok? ==> r.0.value in v.questions)
            && ((exists q :: q in v.questions && q !in asked) ==> r.0.Ok? && r.0.value !in asked)
  {
    var g := Attempts(llm, BasePrompt(v, history, asked, previousAnswer), asked, 0);
    if g.question.None? && v.questions != [] {
      FallbackPick(v.questions, asked, draw);
    }
  }

  /** The fallback draw is a bank question, and an unasked one while any is left. */
  lemma FallbackPick(bank: seq<string>, asked: seq<string>, draw: nat)
    requires bank != []
    ensures var pool := FallbackPool(bank, asked);
            && pool != []
            && pool[draw % |pool|] in bank
            && ((exists q :: q in bank && q !in asked) ==> pool[draw % |pool|] !in asked)
  {
    var pool := FallbackPool(bank, asked);
    assert pool[draw % |pool|] in pool;
  }

  /** A raised call ends the attempts without a question. */
  lemma AttemptRaises(llm: Llm, base: Prompt, asked: seq<string>, k: nat, reply: LlmReply)
    requires k < 3 && reply == llm(base.(retryNotes := k))
    ensures reply.LlmRaises? ==> Attempts(llm, base, asked, k).question.None?
  {
  }

  /** A completion whose cleaned text passes the test is the question. */
  lemma AttemptAccepts(llm: Llm, base: Prompt, asked: seq<string>, k: nat, reply: LlmReply)
    requires k < 3 && reply == llm(base.(retryNotes := k))
    ensures reply.Completion? && Acceptable(NormalizeQuestion(reply.raw), asked)
            ==> Attempts(llm, base, asked, k).question == Some(NormalizeQuestion(reply.raw))
  {
  }

  /** A completion that fails the test leads to the next attempt. */
  lemma AttemptRejects(llm: Llm, base: Prompt, asked: seq<string>, k: nat, reply: LlmReply)
    requires k < 3 && reply == llm(base.(retryNotes := k))
    ensures reply.Completion? && !Acceptable(NormalizeQuestion(reply.raw), asked)
            ==> Attempts(llm, base, asked, k).question == Attempts(llm, base, asked, k + 1).question
  {
  }

  /** The attempt loop of ai_generate_question. */
  method RunAttempts(llm: Llm, base: Prompt, asked: seq<string>) returns (question: Option<string>)
    requires base.retryNotes == 0
    ensures question == Attempts(llm, base, asked, 0).question
  {
    var prompt := base;
    var attempt := 0;
    var raised := false;
    while attempt < 3 && !raised
      invariant attempt <= 3
      invariant prompt == base.(retryNotes := attempt)
      invariant Attempts(llm, base, asked, 0).question
                == if raised then None else Attempts(llm, base, asked, attempt).question
      decreases 3 - attempt, !raised
    {
      var reply := llm(prompt);
      AttemptRaises(llm, base, asked, attempt, reply);
      AttemptAccepts(llm, base, asked, attempt, reply);
      AttemptRejects(llm, base, asked, attempt, reply);
      if reply.LlmRaises? {
        raised := true;
      } else {
        var text := NormalizeQuestion(reply.raw);
        if Acceptable(text, asked) {
          return Some(text);
        }
        prompt := prompt.(retryNotes := prompt.retryNotes + 1);
        attempt := attempt + 1;
      }
    }
    return None;
  }

  /** ai_generate_question: up to three model calls, then the fallback. */
  method GenerateQuestion(v: Vacancy, history: seq<string>, asked: seq<string>, previousAnswer: string, llm: Llm, draw: nat)
    returns (r: Result<string, GenerationError>, askedAfter: seq<string>)
    ensures (r, askedAfter) == Generated(v, history, asked, previousAnswer, llm, draw)
  {
    var question := RunAttempts(llm, BasePrompt(v, history, asked, previousAnswer), asked);
    if question.Some? {
      return Ok(question.value), asked + [question.value];
    }
    var pool := FallbackPool(v.questions, asked);
    if pool == [] {
      return Err(EmptyQuestionBank), asked;
    }
    var pick := pool[draw % |pool|];
    return Ok(pick), asked + [pick];
  }
}

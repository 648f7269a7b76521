/**
 * report_generator.py: the plain-text report shown at the end of a
 * session, and the three-way hiring recommendation it closes with.
 * The score is in tenths of a percent, as everywhere in this model.
 */
module Report {
  import opened Text
  import opened Scores

  /** The three recommendations, from best to worst. */
  datatype Verdict = NextStage | Clarify | Refuse

  function VerdictText(v: Verdict): string {
    match v
    case NextStage => "На следующий этап"
    case Clarify => "Требуется уточнение"
    case Refuse => "Отказ"
  }

  /** Above 70% the candidate goes on, below 50% is refused, and 50%..70% inclusive needs clarification. */
  function Recommend(score: nat): (v: Verdict)
    ensures v == NextStage <==> score > 700
    ensures v == Refuse <==> score < 500
    ensures v == Clarify <==> 500 <= score <= 700
  {
    if score > 700 then NextStage else if score < 500 then Refuse else Clarify
  }

  /** Lower is better. */
  function Rank(v: Verdict): nat {
    match v
    case NextStage => 0
    case Clarify => 1
    case Refuse => 2
  }

  /** A higher score never earns a worse recommendation. */
  lemma RecommendMonotone(a: nat, b: nat)
    requires a <= b
    ensures Rank(Recommend(b)) <= Rank(Recommend(a))
  {
  }

  /** `[f"- {p}" for p in xs]`. */
  function Bulleted(xs: seq<string>): (ys: seq<string>)
    ensures |ys| == |xs|
    ensures forall i :: 0 <= i < |xs| ==> ys[i] == "- " + xs[i]
  {
    if xs == [] then [] else Bulleted(xs[..|xs| - 1]) + ["- " + xs[|xs| - 1]]
  }

  /** The last line of a report. */
  function Closing(v: Verdict): string {
    "Рекомендация: " + VerdictText(v)
  }

  function Header(score: nat): string {
    "Процент соответствия: " + FormatTenths(score) + "%"
  }

  /**
   * `generate_report(score, matched, missing, strong_points, gaps)`; the
   * section titles are written between their "\n"s as separate pieces.
   */
  function GenerateReport(score: nat, matched: seq<string>, missing: seq<string>,
                          strongPoints: seq<string>, gaps: seq<string>): string
  {
    Header(score) + "\n"
    + "\n" + "Сильные стороны:" + "\n" + Join("\n", Bulleted(strongPoints))
    + "\n" + "Пробелы:" + "\n" + Join("\n", Bulleted(gaps))
    + "\n" + "Подтверждено:" + "\n" + Join("\n", Bulleted(matched))
    + "\n" + "Отсутствует:" + "\n" + Join("\n", Bulleted(missing))
    + "\n" + Closing(Recommend(score))
  }

  /** `s.split("\n")`. */
  function Lines(s: string): (ls: seq<string>)
    ensures |ls| >= 1
    decreases |s|
  {
    if '\n' in s then
      var i := IndexOf(s, '\n');
      [s[..i]] + Lines(s[i + 1..])
    else [s]
  }

  /** The first occurrence of `c` is the one with no `c` before it. */
  lemma IndexOfUnique(s: string, c: char, j: nat)
    requires j < |s| && s[j] == c && c !in s[..j]
    ensures IndexOf(s, c) == j
  {
  }

  /** Where the newline between `a` and `b` sits. */
  lemma Around(a: string, b: string)
    ensures var s := a + "\n" + b;
      |s| == |a| + 1 + |b| && s[..|a|] == a && s[|a|] == '\n' && s[|a| + 1..] == b
  {
  }

  /** A position inside `a` splits `a + "\n" + b` as it splits `a`. */
  lemma Inside(a: string, b: string, i: nat)
    requires i < |a|
    ensures var s := a + "\n" + b;
      s[i] == a[i] && s[..i] == a[..i] && s[i + 1..] == a[i + 1..] + "\n" + b
  {
  }

  /** Lines splits at the first newline. */
  lemma LinesAt(s: string, i: nat)
    requires i < |s| && s[i] == '\n' && '\n' !in s[..i]
    ensures Lines(s) == [s[..i]] + Lines(s[i + 1..])
  {
    IndexOfUnique(s, '\n', i);
  }

  /** Splitting at a newline splits the halves independently. */
  lemma {:induction false} LinesConcat(a: string, b: string)
    ensures Lines(a + "\n" + b) == Lines(a) + Lines(b)
    decreases |a|, 1
  {
    if '\n' in a {
      LinesConcatInside(a, b);
    } else {
      Around(a, b);
      LinesAt(a + "\n" + b, |a|);
    }
  }

  /** LinesConcat when `a` has a newline of its own: both split there first. */
  lemma {:induction false} LinesConcatInside(a: string, b: string)
    requires '\n' in a
    ensures Lines(a + "\n" + b) == Lines(a) + Lines(b)
    decreases |a|, 0
  {
    var i := IndexOf(a, '\n');
    var s, t := a + "\n" + b, a[i + 1..];
    LinesConcat(t, b);
    Inside(a, b, i);
    assert s[i + 1..] == t + "\n" + b;
    LinesAt(s, i);
    assert Lines(s) == [a[..i]] + Lines(t + "\n" + b);
    LinesAt(a, i);
    assert Lines(a) == [a[..i]] + Lines(t);
    AppendAssoc([a[..i]], Lines(t), Lines(b));
  }

  /** Sequence concatenation regrouped: a proof helper that keeps the layout proofs cheap. */
  lemma AppendAssoc<T>(x: seq<T>, y: seq<T>, z: seq<T>)
    ensures x + (y + z) == (x + y) + z
  {
  }

  predicate OneLine(x: string) {
    '\n' !in x
  }

  /** A newline-free piece after a newline is one more line. */
  lemma LinesSnoc(a: string, b: string)
    requires OneLine(b)
    ensures Lines(a + "\n" + b) == Lines(a) + [b]
  {
    LinesConcat(a, b);
  }

  /** Joining newline-free lines with "\n" and splitting again gives them back. */
  lemma {:induction false} LinesJoin(xs: seq<string>)
    requires xs != []
    requires forall i :: 0 <= i < |xs| ==> OneLine(xs[i])
    ensures Lines(Join("\n", xs)) == xs
  {
    if |xs| > 1 {
      var init, last := xs[..|xs| - 1], xs[|xs| - 1];
      LinesJoin(init);
      var j := Join("\n", init);
      assert Join("\n", xs) == j + "\n" + last;
      LinesSnoc(j, last);
    }
  }

  /** The lines of one section's item list: one "- item" line each, or a blank line when it is empty. */
  function Items(xs: seq<string>): seq<string> {
    if xs == [] then [""] else Bulleted(xs)
  }

  lemma ItemLines(xs: seq<string>)
    requires forall x :: x in xs ==> OneLine(x)
    ensures Lines(Join("\n", Bulleted(xs))) == Items(xs)
  {
    var ys := Bulleted(xs);
    if xs != [] {
      forall i | 0 <= i < |ys|
        ensures OneLine(ys[i])
      {
        assert OneLine(xs[i]);
      }
      LinesJoin(ys);
    }
  }

  lemma HeaderOneLine(score: nat)
    ensures OneLine(Header(score))
  {
    var h := Header(score);
    var digits := NatToString(score / 10);
    assert h == "Процент соответствия: " + digits + "." + [DigitChar(score % 10)] + "%";
    assert forall k :: 0 <= k < |digits| ==> digits[k] != '\n';
  }

  lemma TitlesOneLine(v: Verdict)
    ensures OneLine("") && OneLine("Сильные стороны:") && OneLine("Пробелы:")
    ensures OneLine("Подтверждено:") && OneLine("Отсутствует:")
    ensures OneLine(Closing(v))
  {
  }

  /**
   * The layout of a report whose items are single lines: the score line,
   * a blank line, then the strong points, gaps, confirmed and missing
   * requirements, each under its title with one "- item" line per item in
   * the given order (a blank line for an empty list), and the
   * recommendation as the last line.
   */
  lemma ReportLayout(score: nat, matched: seq<string>, missing: seq<string>,
                     strongPoints: seq<string>, gaps: seq<string>)
    requires forall x :: x in matched + missing + strongPoints + gaps ==> OneLine(x)
    ensures Lines(GenerateReport(score, matched, missing, strongPoints, gaps))
         == [Header(score), "", "Сильные стороны:"] + Items(strongPoints)
          + ["Пробелы:"] + Items(gaps)
          + ["Подтверждено:"] + Items(matched)
          + ["Отсутствует:"] + Items(missing)
          + [Closing(Recommend(score))]
  {
    var h := Header(score);
    var j1, j2, j3, j4 := Join("\n", Bulleted(strongPoints)), Join("\n", Bulleted(gaps)),
                          Join("\n", Bulleted(matched)), Join("\n", Bulleted(missing));
    var last := Closing(Recommend(score));
    var q0 := h + "\n";
    var q1 := q0 + "\n" + "Сильные стороны:" + "\n" + j1;
    var q2 := q1 + "\n" + "Пробелы:" + "\n" + j2;
    var q3 := q2 + "\n" + "Подтверждено:" + "\n" + j3;
    var q4 := q3 + "\n" + "Отсутствует:" + "\n" + j4;
    assert GenerateReport(score, matched, missing, strongPoints, gaps) == q4 + "\n" + last;
    HeaderOneLine(score);
    TitlesOneLine(Recommend(score));
    ItemLines(strongPoints);
    ItemLines(gaps);
    ItemLines(matched);
    ItemLines(missing);
    LinesOne(h);
    LinesSnoc(h, "");
    assert h + "\n" + "" == q0;
    var p0 := [h, ""];
    assert Lines(q0) == p0;
    Section(q0, "Сильные стороны:", j1);
    Triple(h, "", "Сильные стороны:");
    var p1 := [h, "", "Сильные стороны:"] + Items(strongPoints);
    assert Lines(q1) == p1;
    Section(q1, "Пробелы:", j2);
    var p2 := p1 + ["Пробелы:"] + Items(gaps);
    assert Lines(q2) == p2;
    Section(q2, "Подтверждено:", j3);
    var p3 := p2 + ["Подтверждено:"] + Items(matched);
    assert Lines(q3) == p3;
    Section(q3, "Отсутствует:", j4);
    var p4 := p3 + ["Отсутствует:"] + Items(missing);
    assert Lines(q4) == p4;
    LinesSnoc(q4, last);
  }

  /** Whatever the items hold, a report starts with the score line and a blank line. */
  lemma ReportStarts(score: nat, matched: seq<string>, missing: seq<string>,
                     strongPoints: seq<string>, gaps: seq<string>)
    ensures Header(score) + "\n" + "\n" <= GenerateReport(score, matched, missing, strongPoints, gaps)
  {
    var j1, j2, j3, j4 := Join("\n", Bulleted(strongPoints)), Join("\n", Bulleted(gaps)),
                          Join("\n", Bulleted(matched)), Join("\n", Bulleted(missing));
    var head := Header(score) + "\n" + "\n";
    var q1 := head + "Сильные стороны:" + "\n" + j1;
    var q2 := q1 + "\n" + "Пробелы:" + "\n" + j2;
    var q3 := q2 + "\n" + "Подтверждено:" + "\n" + j3;
    var q4 := q3 + "\n" + "Отсутствует:" + "\n" + j4;
    var r := q4 + "\n" + Closing(Recommend(score));
    assert GenerateReport(score, matched, missing, strongPoints, gaps) == r;
    Extends(head, "Сильные стороны:", "\n", j1);
    Extends(q1, "\n", "Пробелы:", "\n" + j2);
    PrefixTrans(head, q1, q2);
    Extends(q2, "\n", "Подтверждено:", "\n" + j3);
    PrefixTrans(head, q2, q3);
    Extends(q3, "\n", "Отсутствует:", "\n" + j4);
    PrefixTrans(head, q3, q4);
    Extends(q4, "\n", Closing(Recommend(score)), "");
    PrefixTrans(head, q4, r);
  }

  /** The prefix order is transitive: a proof helper for `ReportStarts`. */
  lemma PrefixTrans(a: string, b: string, c: string)
    requires a <= b && b <= c
    ensures a <= c
  {
  }

  /** Whatever the items hold, a report ends with a newline and the recommendation. */
  lemma ReportEnds(score: nat, matched: seq<string>, missing: seq<string>,
                   strongPoints: seq<string>, gaps: seq<string>)
    ensures var r := GenerateReport(score, matched, missing, strongPoints, gaps);
            var tail := "\n" + Closing(Recommend(score));
            |tail| <= |r| && r[|r| - |tail|..] == tail
  {
    var q4 := Header(score) + "\n"
      + "\n" + "Сильные стороны:" + "\n" + Join("\n", Bulleted(strongPoints))
      + "\n" + "Пробелы:" + "\n" + Join("\n", Bulleted(gaps))
      + "\n" + "Подтверждено:" + "\n" + Join("\n", Bulleted(matched))
      + "\n" + "Отсутствует:" + "\n" + Join("\n", Bulleted(missing));
    var last := Closing(Recommend(score));
    assert GenerateReport(score, matched, missing, strongPoints, gaps) == q4 + "\n" + last;
    EndsWith(q4, "\n", last);
  }

  /** What was appended last is the suffix: a proof helper for `ReportEnds`. */
  lemma EndsWith(a: string, b: string, c: string)
    ensures var r := a + b + c;
            |b + c| <= |r| && r[|r| - |b + c|..] == b + c
  {
    assert a + b + c == a + (b + c);
  }

  /** Appending keeps what was there as a prefix: a proof helper for `ReportStarts`. */
  lemma Extends(a: string, b: string, c: string, d: string)
    ensures a <= a + b + c + d
  {
    assert a + b + c + d == a + (b + c + d);
  }

  /** A newline-free string is one line. */
  lemma LinesOne(x: string)
    requires OneLine(x)
    ensures Lines(x) == [x]
  {
  }

  /** A section: its title on a line of its own, then the lines of its body. */
  lemma Section(p: string, title: string, body: string)
    requires OneLine(title)
    ensures Lines(p + "\n" + title + "\n" + body) == Lines(p) + [title] + Lines(body)
  {
    LinesSnoc(p, title);
    LinesConcat(p + "\n" + title, body);
  }
}

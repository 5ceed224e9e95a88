/**
 * The messages the producer puts on the queue, and the text the
 * presentation side derives from them: log lines with their severity icon
 * (log_message) and the verdict / prevention text (show_recommendations).
 */
module Events {
  import opened Scoring

  /** One queued message: the `log`, `attack_complete` and `error` dictionaries. */
  datatype Event =
    | LogEvent(severity: string, message: string, threatLevel: int)
    | AttackComplete(verdict: string, prevention: seq<string>, threatLevel: int)
    | ErrorEvent(message: string)
  {
    /** attack_complete and error end a run on the presentation side. */
    predicate Terminal() {
      !LogEvent?
    }
  }

  /** One line of the log widget: its timestamp, its severity tag and its text. */
  datatype LogEntry = LogEntry(stamp: string, severity: string, message: string)

  /** The icon dictionary of log_message, with "●" for any other severity. */
  function SeverityIcon(severity: string): (icon: string)
    ensures |icon| == 1
    ensures icon == "●" <==> !KnownSeverity(severity)
  {
    if severity == Info then "▶"
    else if severity == Warning then "⚠"
    else if severity == Error then "✖"
    else if severity == Critical then "⚡"
    else "●"
  }

  /** The icon identifies the severity among the four known ones. */
  lemma SeverityIconInjective(s1: string, s2: string)
    requires KnownSeverity(s1) && KnownSeverity(s2) && s1 != s2
    ensures SeverityIcon(s1) != SeverityIcon(s2)
  {
  }

  /**
   * The text log_message inserts: `f"{timestamp} {icon} {message}\n"`; the
   * timestamp is whatever the clock gave.
   */
  function LogLine(e: LogEntry): (line: string)
    ensures |line| == |e.stamp| + |e.message| + 4
    ensures line[..|e.stamp|] == e.stamp
    ensures line[|e.stamp|..|e.stamp| + 3] == [' '] + SeverityIcon(e.severity) + [' ']
    ensures line[|e.stamp| + 3..|line| - 1] == e.message
    ensures line[|line| - 1] == '\n'
  {
    var line := e.stamp + " " + SeverityIcon(e.severity) + " " + e.message + "\n";
    assert line == e.stamp + ([' '] + SeverityIcon(e.severity) + [' ']) + e.message + "\n";
    line
  }

  // ---------------------------------------------------------------- text helpers

  function DigitChar(d: nat): (c: char)
    requires d < 10
    ensures '0' <= c <= '9'
  {
    ('0' as int + d) as char
  }

  /** The number a string of decimal digits denotes, most significant digit first. */
  function DecimalValue(s: string): (v: nat)
    requires forall i :: 0 <= i < |s| ==> '0' <= s[i] <= '9'
  {
    if s == [] then 0 else DecimalValue(s[..|s| - 1]) * 10 + (s[|s| - 1] as int - '0' as int)
  }

  /** `str(n)` for a natural number. */
  function DecimalString(n: nat): (s: string)
    ensures |s| > 0
    ensures forall i :: 0 <= i < |s| ==> '0' <= s[i] <= '9'
  {
    if n < 10 then [DigitChar(n)] else DecimalString(n / 10) + [DigitChar(n % 10)]
  }

  /** `str(n)` is the digits of n: their value is n, with no leading zero and one digit exactly below 10. */
  lemma {:induction false} DecimalStringValue(n: nat)
    ensures DecimalValue(DecimalString(n)) == n
    ensures DecimalString(n)[0] == '0' <==> n == 0
    ensures n < 10 <==> |DecimalString(n)| == 1
  {
    var s := DecimalString(n);
    if n < 10 {
      assert s[..0] == [];
    } else {
      var p := DecimalString(n / 10);
      DecimalStringValue(n / 10);
      assert s == p + [DigitChar(n % 10)];
      assert s[..|s| - 1] == p;
      assert s[0] == p[0];
    }
  }

  /** `s.upper()` on ASCII letters. */
  function UpperAscii(s: string): (t: string)
    ensures |t| == |s|
    ensures forall i :: 0 <= i < |s| ==> t[i] == if 'a' <= s[i] <= 'z' then (s[i] as int - 32) as char else s[i]
  {
    if s == [] then []
    else [if 'a' <= s[0] <= 'z' then (s[0] as int - 32) as char else s[0]] + UpperAscii(s[1..])
  }

  /** `s.replace('_', ' ')` */
  function UnderscoresToSpaces(s: string): (t: string)
    ensures |t| == |s|
    ensures forall i :: 0 <= i < |s| ==> t[i] == if s[i] == '_' then ' ' else s[i]
  {
    if s == [] then [] else [if s[0] == '_' then ' ' else s[0]] + UnderscoresToSpaces(s[1..])
  }

  const StartPrefix: string := "[START] ⚡ Initiating "
  const StartSuffix: string := " simulation..."

  /** How the attack name shows in the start line: upper case, underscores as spaces. */
  function DisplayChar(c: char): char {
    if c == '_' then ' ' else if 'a' <= c <= 'z' then (c as int - 32) as char else c
  }

  /** The line initiate_simulation logs, at CRITICAL. */
  function StartMessage(attackType: string): (m: string)
    ensures |m| == |StartPrefix| + |attackType| + |StartSuffix|
  {
    StartPrefix + UpperAscii(UnderscoresToSpaces(attackType)) + StartSuffix
  }

  /**
   * The START line is the attack name, shown character by character as
   * DisplayChar, between a fixed prefix and suffix.
   */
  lemma StartMessageLayout(attackType: string)
    ensures var m := StartMessage(attackType);
            && m[..|StartPrefix|] == StartPrefix
            && m[|m| - |StartSuffix|..] == StartSuffix
            && forall i :: 0 <= i < |attackType| ==> m[|StartPrefix| + i] == DisplayChar(attackType[i])
  {
    var name := UpperAscii(UnderscoresToSpaces(attackType));
    ConcatLayout(StartPrefix, name, StartSuffix);
  }

  /** Where the three parts of a concatenation sit. */
  lemma ConcatLayout(p: string, n: string, q: string)
    ensures var m := p + n + q;
            && m[..|p|] == p
            && m[|m| - |q|..] == q
            && m[|p|..|p| + |n|] == n
            && forall i :: 0 <= i < |n| ==> m[|p| + i] == n[i]
  {
    var m := p + n + q;
    assert m[..|p|] == p;
    assert m[|m| - |q|..] == q;
    assert m[|p|..|p| + |n|] == n;
  }

  // ---------------------------------------------------------------- show_recommendations

  const VerdictTitle: string := "◢ VERDICT ◣"
  const PreventionTitle: string := "◢ PREVENTION PROTOCOLS ◣"

  /** The fixed head of the text: the verdict under its title, a blank line, the prevention title. */
  function RecommendationHeader(verdict: string): (h: string)
    ensures |h| == |VerdictTitle| + |verdict| + |PreventionTitle| + 4
    ensures h[..|VerdictTitle| + 1] == VerdictTitle + "\n"
    ensures h[|VerdictTitle| + 1..|VerdictTitle| + 1 + |verdict|] == verdict
    ensures h[|VerdictTitle| + 1 + |verdict|..] == "\n\n" + PreventionTitle + "\n"
  {
    var h := VerdictTitle + "\n" + verdict + "\n" + "\n" + PreventionTitle + "\n";
    ConcatLayout(VerdictTitle + "\n", verdict, "\n" + "\n" + PreventionTitle + "\n");
    assert h == (VerdictTitle + "\n") + verdict + ("\n" + "\n" + PreventionTitle + "\n");
    h
  }

  /** The line of the prevention step numbered k. */
  function StepLine(k: nat, step: string): (line: string)
    ensures |line| > 0 && line[|line| - 1] == '\n'
  {
    "  ⟫ [" + DecimalString(k) + "] " + step + "\n"
  }

  /** The step line is the marker, the number k in decimal, the step's text and a line break. */
  lemma StepLineLayout(k: nat, step: string)
    ensures var line, d := StepLine(k, step), DecimalString(k);
            && |line| == |d| + |step| + 8
            && line[..5] == "  ⟫ ["
            && line[5..5 + |d|] == d
            && line[5 + |d|..|line| - 1] == "] " + step
  {
    var d := DecimalString(k);
    var line := StepLine(k, step);
    ConcatLayout("  ⟫ [", d, "] " + step + "\n");
    assert line == "  ⟫ [" + d + ("] " + step + "\n");
    assert line[5 + |d|..|line| - 1] == "] " + step;
  }

  /** The steps, each on its own line, numbered consecutively from `first`. */
  function NumberedSteps(steps: seq<string>, first: nat): (text: string)
    ensures steps == [] <==> text == []
    ensures steps != [] ==> text[|text| - 1] == '\n'
    decreases |steps|
  {
    if steps == [] then "" else StepLine(first, steps[0]) + NumberedSteps(steps[1..], first + 1)
  }

  /**
   * The whole text of the recommendations label: the verdict under its
   * title, then the steps numbered from 1; with no steps only the header.
   */
  function Recommendations(verdict: string, steps: seq<string>): (text: string)
    ensures |RecommendationHeader(verdict)| <= |text|
    ensures text[..|RecommendationHeader(verdict)|] == RecommendationHeader(verdict)
    ensures text[..|VerdictTitle| + 1] == VerdictTitle + "\n"
    ensures text[|VerdictTitle| + 1..|VerdictTitle| + 1 + |verdict|] == verdict
    ensures steps == [] <==> text == RecommendationHeader(verdict)
  {
    var header := RecommendationHeader(verdict);
    var text := header + NumberedSteps(steps, 1);
    assert text[..|header|] == header;
    assert header[..|VerdictTitle| + 1] == VerdictTitle + "\n";
    assert header[|VerdictTitle| + 1..|VerdictTitle| + 1 + |verdict|] == verdict;
    assert steps != [] ==> |NumberedSteps(steps, 1)| > 0;
    text
  }

  lemma {:induction false} NumberedStepsSnoc(steps: seq<string>, x: string, first: nat)
    ensures NumberedSteps(steps + [x], first) == NumberedSteps(steps, first) + StepLine(first + |steps|, x)
    decreases |steps|
  {
    if steps == [] {
      assert steps + [x] == [x];
      assert NumberedSteps([x], first) == StepLine(first, x) + NumberedSteps([], first + 1);
    } else {
      assert (steps + [x])[1..] == steps[1..] + [x];
      NumberedStepsSnoc(steps[1..], x, first + 1);
    }
  }

  /** Numbering one more step of a prefix appends that step's line. */
  lemma NumberedStepsPrefix(steps: seq<string>, i: nat)
    requires i < |steps|
    ensures NumberedSteps(steps[..i + 1], 1) == NumberedSteps(steps[..i], 1) + StepLine(i + 1, steps[i])
  {
    NumberedStepsSnoc(steps[..i], steps[i], 1);
    assert steps[..i + 1] == steps[..i] + [steps[i]];
  }

  /** The loop of show_recommendations, which appends one numbered line per step. */
  method BuildRecommendations(verdict: string, steps: seq<string>) returns (text: string)
    ensures text == Recommendations(verdict, steps)
  {
    var header := RecommendationHeader(verdict);
    text := header;
    var i := 0;
    while i < |steps|
      invariant 0 <= i <= |steps|
      invariant text == header + NumberedSteps(steps[..i], 1)
    {
      NumberedStepsPrefix(steps, i);
      text := text + StepLine(i + 1, steps[i]);
      i := i + 1;
    }
    assert steps[..i] == steps;
  }

  // ---------------------------------------------------------------- line structure

  function Newlines(s: string): (count: nat) {
    if s == [] then 0 else (if s[0] == '\n' then 1 else 0) + Newlines(s[1..])
  }

  lemma {:induction false} NewlinesAppend(a: string, b: string)
    ensures Newlines(a + b) == Newlines(a) + Newlines(b)
    decreases |a|
  {
    if a == [] {
      assert a + b == b;
    } else {
      assert (a + b)[1..] == a[1..] + b;
      NewlinesAppend(a[1..], b);
    }
  }

  predicate SingleLine(s: string) {
    forall i :: 0 <= i < |s| ==> s[i] != '\n'
  }

  lemma {:induction false} NewlinesSingleLine(s: string)
    requires SingleLine(s)
    ensures Newlines(s) == 0
    decreases |s|
  {
    if s != [] {
      NewlinesSingleLine(s[1..]);
    }
  }

  lemma StepLineNewlines(k: nat, step: string)
    requires SingleLine(step)
    ensures Newlines(StepLine(k, step)) == 1
  {
    var prefix := "  ⟫ [" + DecimalString(k) + "] " + step;
    assert StepLine(k, step) == prefix + "\n";
    assert SingleLine(prefix);
    LineNewlines(prefix);
  }

  lemma {:induction false} NumberedStepsNewlines(steps: seq<string>, first: nat)
    requires forall i :: 0 <= i < |steps| ==> SingleLine(steps[i])
    ensures Newlines(NumberedSteps(steps, first)) == |steps|
    decreases |steps|
  {
    if steps != [] {
      StepLineNewlines(first, steps[0]);
      NumberedStepsNewlines(steps[1..], first + 1);
      NewlinesAppend(StepLine(first, steps[0]), NumberedSteps(steps[1..], first + 1));
    }
  }

  /**
   * For a one-line verdict and one-line steps, the recommendations text has
   * four header lines and then exactly one line per prevention step.
   */
  lemma RecommendationsLineCount(verdict: string, steps: seq<string>)
    requires SingleLine(verdict)
    requires forall i :: 0 <= i < |steps| ==> SingleLine(steps[i])
    ensures Newlines(Recommendations(verdict, steps)) == 4 + |steps|
  {
    var l1, l2 := VerdictTitle, PreventionTitle;
    var header := (l1 + "\n") + (verdict + "\n") + "\n" + (l2 + "\n");
    assert RecommendationHeader(verdict) == header;
    LineNewlines(l1);
    LineNewlines(verdict);
    LineNewlines(l2);
    assert Newlines("\n") == 1;
    NewlinesAppend(l1 + "\n", verdict + "\n");
    NewlinesAppend((l1 + "\n") + (verdict + "\n"), "\n");
    NewlinesAppend((l1 + "\n") + (verdict + "\n") + "\n", l2 + "\n");
    NumberedStepsNewlines(steps, 1);
    NewlinesAppend(header, NumberedSteps(steps, 1));
  }

  lemma LineNewlines(s: string)
    requires SingleLine(s)
    ensures Newlines(s + "\n") == 1
  {
    NewlinesSingleLine(s);
    NewlinesAppend(s, "\n");
  }
}

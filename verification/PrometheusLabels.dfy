// observability-metrics.service.ts, escapePrometheusLabel: three global replacements, and what
// a reader of the text format makes of the result.
module PrometheusLabels {
  import opened Options

  /** `s.replace(/c/g, with)`. */
  function ReplaceAll(s: string, c: char, with: string): string {
    if s == "" then "" else (if s[0] == c then with else [s[0]]) + ReplaceAll(s[1..], c, with)
  }

  function EscapePrometheusLabel(s: string): string {
    ReplaceAll(ReplaceAll(ReplaceAll(s, '\\', "\\\\"), '"', "\\\""), '\n', "\\n")
  }

  // ---------------------------------------------------------------- one pass

  function EscapeChar(c: char): string {
    if c == '\\' then "\\\\" else if c == '"' then "\\\"" else if c == '\n' then "\\n" else [c]
  }

  function OnePass(s: string): string {
    if s == "" then "" else EscapeChar(s[0]) + OnePass(s[1..])
  }

  lemma {:induction false} ReplaceAllOfConcat(a: string, b: string, c: char, with: string)
    ensures ReplaceAll(a + b, c, with) == ReplaceAll(a, c, with) + ReplaceAll(b, c, with)
  {
    if a == "" {
      assert a + b == b;
    } else {
      ReplaceAllOfConcat(a[1..], b, c, with);
      assert (a + b)[0] == a[0] && (a + b)[1..] == a[1..] + b;
      var first := if a[0] == c then with else [a[0]];
      assert ReplaceAll(a + b, c, with) == first + (ReplaceAll(a[1..], c, with) + ReplaceAll(b, c, with));
    }
  }

  lemma EscapeOfConcat(a: string, b: string)
    ensures EscapePrometheusLabel(a + b) == EscapePrometheusLabel(a) + EscapePrometheusLabel(b)
  {
    hide ReplaceAll;
    ReplaceAllOfConcat(a, b, '\\', "\\\\");
    var a1, b1 := ReplaceAll(a, '\\', "\\\\"), ReplaceAll(b, '\\', "\\\\");
    ReplaceAllOfConcat(a1, b1, '"', "\\\"");
    ReplaceAllOfConcat(ReplaceAll(a1, '"', "\\\""), ReplaceAll(b1, '"', "\\\""), '\n', "\\n");
  }

  lemma ReplaceOne(d: char, c: char, with: string)
    ensures ReplaceAll([d], c, with) == if d == c then with else [d]
  {
    assert [d][1..] == "";
  }

  lemma ReplaceTwo(d: char, e: char, c: char, with: string)
    requires c != d
    ensures ReplaceAll([d, e], c, with) == [d] + (if e == c then with else [e])
  {
    ReplaceOne(e, c, with);
    assert [d, e][1..] == [e];
  }

  lemma EscapeOfChar(c: char)
    ensures EscapePrometheusLabel([c]) == EscapeChar(c)
  {
    hide ReplaceAll;
    ReplaceOne(c, '\\', "\\\\");
    ReplaceOne(c, '"', "\\\"");
    ReplaceOne(c, '\n', "\\n");
    ReplaceTwo('\\', '\\', '"', "\\\"");
    ReplaceTwo('\\', '\\', '\n', "\\n");
    ReplaceTwo('\\', '"', '\n', "\\n");
    assert "\\\\" == ['\\', '\\'] == ['\\'] + ['\\'];
    assert "\\\"" == ['\\', '"'] == ['\\'] + ['"'];
  }

  /** The three passes escape each character once: no pass touches what an earlier one wrote. */
  lemma {:induction false} ThreePassesAreOne(s: string)
    ensures EscapePrometheusLabel(s) == OnePass(s)
  {
    if s != "" {
      assert s == [s[0]] + s[1..];
      EscapeOfConcat([s[0]], s[1..]);
      EscapeOfChar(s[0]);
      ThreePassesAreOne(s[1..]);
    }
  }

  // ---------------------------------------------------------------- reading it back

  /** A reader of `name="..."` that stands behind the opening quote: the decoded value, and what
      follows the first quote that no backslash escapes. None for a raw newline, a dangling or
      an unknown escape, or a missing quote. */
  function ReadLabel(text: string): Option<(string, string)> {
    if text == "" || text[0] == '\n' then None
    else if text[0] == '"' then Some(("", text[1..]))
    else if text[0] != '\\' then
      match ReadLabel(text[1..])
      case None => None
      case Some((value, rest)) => Some(([text[0]] + value, rest))
    else if |text| < 2 || text[1] !in ['\\', '"', 'n'] then None
    else
      match ReadLabel(text[2..])
      case None => None
      case Some((value, rest)) => Some(([if text[1] == 'n' then '\n' else text[1]] + value, rest))
  }

  lemma ReadsOneChar(c: char, more: string)
    ensures ReadLabel(EscapeChar(c) + more) ==
            match ReadLabel(more) case None => None case Some((value, rest)) => Some(([c] + value, rest))
  {
    var text := EscapeChar(c) + more;
    if |EscapeChar(c)| == 1 {
      assert text[0] == c && text[1..] == more;
    } else {
      assert text[0] == '\\' && text[1] == EscapeChar(c)[1] && text[2..] == more;
    }
  }

  lemma {:induction false} OnePassReadsBack(s: string, rest: string)
    ensures ReadLabel(OnePass(s) + "\"" + rest) == Some((s, rest))
  {
    if s == "" {
      assert (OnePass(s) + "\"" + rest)[1..] == rest;
    } else {
      hide ReadLabel, EscapeChar;
      var more := OnePass(s[1..]) + "\"" + rest;
      OnePassReadsBack(s[1..], rest);
      ReadsOneChar(s[0], more);
      assert OnePass(s) + "\"" + rest == EscapeChar(s[0]) + more;
      assert s == [s[0]] + s[1..];
    }
  }

  lemma {:induction false} ReadTextWasEscaped(text: string)
    requires ReadLabel(text).Some?
    ensures var (s, rest) := ReadLabel(text).value; text == OnePass(s) + "\"" + rest
    decreases |text|
  {
    if text[0] == '"' {
      assert text == "\"" + text[1..];
    } else {
      var n := if text[0] == '\\' then 2 else 1;
      ReadTextWasEscaped(text[n..]);
      var (s, rest) := ReadLabel(text).value;
      assert text[..n] == EscapeChar(s[0]);
      assert text == text[..n] + text[n..];
      assert OnePass(s) == text[..n] + OnePass(s[1..]);
    }
  }

  /** Escaping and reading are inverse to one another: a text reads as the label s followed by
      `rest` exactly when it is the escaped s, a quote and `rest`. So every label is recovered
      whatever follows it, and nothing else reads as it. */
  lemma ReadsBackIff(text: string, s: string, rest: string)
    ensures ReadLabel(text) == Some((s, rest)) <==> text == EscapePrometheusLabel(s) + "\"" + rest
  {
    ThreePassesAreOne(s);
    OnePassReadsBack(s, rest);
    if ReadLabel(text) == Some((s, rest)) {
      ReadTextWasEscaped(text);
    }
  }

  /** Different labels stay different. */
  lemma EscapeInjective(s: string, t: string)
    requires EscapePrometheusLabel(s) == EscapePrometheusLabel(t)
    ensures s == t
  {
    ReadsBackIff(EscapePrometheusLabel(s) + "\"" + "", s, "");
    ReadsBackIff(EscapePrometheusLabel(s) + "\"" + "", t, "");
  }

  /** No raw newline, and no quote that is not escaped. */
  predicate OneToken(text: string) {
    if text == "" then true
    else if text[0] == '\\' then |text| >= 2 && text[1] in ['\\', '"', 'n'] && OneToken(text[2..])
    else text[0] != '"' && text[0] != '\n' && OneToken(text[1..])
  }

  lemma {:induction false} OutputIsOneToken(s: string)
    ensures OneToken(EscapePrometheusLabel(s)) && '\n' !in EscapePrometheusLabel(s)
  {
    ThreePassesAreOne(s);
    if s != "" {
      OutputIsOneToken(s[1..]);
      ThreePassesAreOne(s[1..]);
      assert OnePass(s)[|EscapeChar(s[0])|..] == OnePass(s[1..]);
    }
  }
}

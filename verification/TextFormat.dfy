/**
  The part of the Prometheus text format 0.0.4 that the exporters write: comment and blank
  lines, and sample lines with one label and no timestamp. `Render` is the exporters' line
  format; `Parse` is an independent reader that knows about label escaping.
 */
module TextFormat {
  import opened Wrappers
  import opened CStrings
  import opened Decimals

  /** A sample with its one label. */
  datatype Sample = Sample(name: string, key: string, text: string, value: Numeral)

  predicate IsNameChar(c: char) {
    'a' <= c <= 'z' || 'A' <= c <= 'Z' || '0' <= c <= '9' || c == '_' || c == ':'
  }

  ghost predicate IsName(s: string) {
    s != "" && forall i :: 0 <= i < |s| ==> IsNameChar(s[i])
  }

  predicate IsLabelChar(c: char) { 'a' <= c <= 'z' || 'A' <= c <= 'Z' || '0' <= c <= '9' || c == '_' }

  ghost predicate IsLabel(s: string) {
    s != "" && !IsDigit(s[0]) && forall i :: 0 <= i < |s| ==> IsLabelChar(s[i])
  }

  /** What a well-formed sample line needs besides its label value. */
  ghost predicate IsNamed(s: Sample) { IsName(s.name) && IsLabel(s.key) }

  const TENANT := "tenant"

  /** The label that all samples of a tenant carry. */
  function TenantSample(name: string, tenant: string, value: Numeral): Sample { Sample(name, TENANT, tenant, value) }

  /** A label value that can stand between the quotes as it is. */
  predicate NeedsNoEscape(s: string) {
    forall c <- s :: c != '"' && c != '\\' && c != '\n'
  }

  /** What stands between the name and the label value. */
  function Opening(key: string): string { "{" + key + "=\"" }

  const CLOSING := "\"} "

  /** A sample line without its line feed, as the exporters' format strings lay it out. */
  function RenderLine(s: Sample): string {
    s.name + Opening(s.key) + (s.text + CLOSING + Print(s.value))
  }

  function Render(samples: seq<Sample>): string {
    if samples == [] then "" else RenderLine(samples[0]) + "\n" + Render(samples[1..])
  }

  // ----- reader

  /** Reads a label value up to its closing quote; gives the decoded value and what follows. */
  function ReadQuoted(s: string): Option<(string, string)> {
    if s == "" then None
    else if s[0] == '"' then Some(("", s[1..]))
    else if s[0] == '\\' then
      if |s| < 2 || s[1] !in "\\\"n" then None
      else
        var (v, rest) :- ReadQuoted(s[2..]);
        Some(([if s[1] == 'n' then '\n' else s[1]] + v, rest))
    else
      var (v, rest) :- ReadQuoted(s[1..]);
      Some(([s[0]] + v, rest))
  }

  predicate StartsWith(s: string, prefix: string) { prefix <= s }

  function ReadLine(line: string): Option<Sample> {
    var n := Span(line, IsNameChar);
    if n == 0 || !StartsWith(line[n..], "{") then None
    else
      var m := Span(line[n + 1..], IsLabelChar);
      var key, after := line[n + 1..][..m], line[n + 1..][m..];
      if m == 0 || IsDigit(key[0]) || !StartsWith(after, "=\"") then None
      else
        var (text, rest) :- ReadQuoted(after[2..]);
        if !StartsWith(rest, "} ") then None
        else
          var v :- ReadNumeral(rest[2..]);
          Some(Sample(line[..n], key, text, v))
  }

  predicate NotLineFeed(c: char) { c != '\n' }

  predicate IsSkipped(line: string) { line == "" || line[0] == '#' }

  /** Every line must be complete, and be skipped or read as a sample. */
  function Parse(text: string): Option<seq<Sample>> {
    if text == "" then Some([])
    else
      var n := Span(text, NotLineFeed);
      if n == |text| then None
      else
        var rest :- Parse(text[n + 1..]);
        if IsSkipped(text[..n]) then Some(rest)
        else
          var s :- ReadLine(text[..n]);
          Some([s] + rest)
  }

  // ----- reading undoes rendering

  lemma {:induction false} ReadQuotedPlain(value: string, rest: string)
    requires NeedsNoEscape(value)
    requires rest != "" && rest[0] == '"'
    ensures ReadQuoted(value + rest) == Some((value, rest[1..]))
  {
    if value == "" {
      assert value + rest == rest;
    } else {
      assert value[0] in value;
      assert forall c <- value[1..] :: c in value;
      ReadQuotedPlain(value[1..], rest);
      assert (value + rest)[1..] == value[1..] + rest;
      assert value == [value[0]] + value[1..];
    }
  }

  /** The name, the label, and then the label value with what follows it. */
  lemma SplitRenderedLine(name: string, key: string, tail: string)
    requires IsName(name) && IsLabel(key)
    ensures var line := name + Opening(key) + tail; var inner := line[|name| + 1..];
      && Span(line, IsNameChar) == |name| && line[..|name|] == name && StartsWith(line[|name|..], "{")
      && Span(inner, IsLabelChar) == |key| && inner[..|key|] == key
      && StartsWith(inner[|key|..], "=\"") && inner[|key|..][2..] == tail
  {
    var line := name + Opening(key) + tail;
    var after := "=\"" + tail;
    assert line == name + ("{" + key + after);
    SpanStops(name, "{" + key + after, IsNameChar);
    assert line[|name|..] == "{" + key + after;
    var inner := line[|name| + 1..];
    assert inner == key + after;
    SpanStops(key, after, IsLabelChar);
    assert inner[|key|..] == after && after[2..] == tail;
  }

  /** Reading such a line comes down to reading its label value. */
  lemma ReadSplitLine(name: string, key: string, tail: string)
    requires IsName(name) && IsLabel(key)
    ensures ReadLine(name + Opening(key) + tail) ==
      match ReadQuoted(tail)
      case None => None
      case Some((text, rest)) =>
        if !StartsWith(rest, "} ") then None
        else match ReadNumeral(rest[2..]) case None => None case Some(v) => Some(Sample(name, key, text, v))
  {
    hide Span, ReadQuoted, ReadNumeral, Opening;
    SplitRenderedLine(name, key, tail);
  }

  /** What is left of the closing after its quote has been consumed. */
  lemma ClosingShape(value: Numeral)
    ensures var close := (CLOSING + Print(value))[1..];
      && StartsWith(close, "} ") && close[2..] == Print(value)
      && forall k :: 0 < k < |close| ==> close[k] != '}'
  {
    PrintedCharacters(value);
    ClosingSplit(Print(value));
  }

  lemma ClosingSplit(p: string)
    requires forall c <- p :: c != '}'
    ensures var close := (CLOSING + p)[1..];
      && StartsWith(close, "} ") && close[2..] == p
      && forall k :: 0 < k < |close| ==> close[k] != '}'
  {
    var close := (CLOSING + p)[1..];
    assert close[0] == '}' && close[1] == ' ';
    forall k | 0 < k < |close|
      ensures close[k] != '}'
    {
      if k >= 2 {
        assert close[k] == p[k - 2] && p[k - 2] in p;
      }
    }
  }

  lemma ReadRenderedLine(s: Sample)
    requires IsNamed(s) && NeedsNoEscape(s.text)
    ensures ReadLine(RenderLine(s)) == Some(s)
  {
    hide Print, ReadNumeral, ReadQuoted, ReadLine, Opening;
    var tail := CLOSING + Print(s.value);
    assert s.text + CLOSING + Print(s.value) == s.text + tail;
    ReadSplitLine(s.name, s.key, s.text + CLOSING + Print(s.value));
    ReadQuotedPlain(s.text, tail);
    ClosingShape(s.value);
    ReadPrinted(s.value);
  }

  lemma SingleLine(s: Sample)
    requires IsNamed(s) && '\n' !in s.text
    ensures '\n' !in RenderLine(s) && !IsSkipped(RenderLine(s))
  {
    hide Print;
    PrintedCharacters(s.value);
    assert RenderLine(s)[0] == s.name[0];
  }

  /** One line at the front of a text. */
  lemma ParseFirstLine(line: string, rest: string)
    requires '\n' !in line
    ensures var text := line + "\n" + rest;
      Parse(text) == match Parse(rest)
                     case None => None
                     case Some(ss) =>
                       if IsSkipped(line) then Some(ss)
                       else match ReadLine(line) case None => None case Some(s) => Some([s] + ss)
  {
    var text := line + "\n" + rest;
    assert text == line + ("\n" + rest);
    SpanStops(line, "\n" + rest, NotLineFeed);
    assert text[..|line|] == line && text[|line| + 1..] == rest;
  }

  ghost predicate Readable(samples: seq<Sample>) {
    forall s <- samples :: IsNamed(s) && NeedsNoEscape(s.text)
  }

  lemma ParseFirstSample(s: Sample, rest: seq<Sample>)
    requires IsNamed(s) && NeedsNoEscape(s.text) && Parse(Render(rest)) == Some(rest)
    ensures Parse(RenderLine(s) + "\n" + Render(rest)) == Some([s] + rest)
  {
    hide Render, RenderLine, ReadLine, Parse;
    SingleLine(s);
    ReadRenderedLine(s);
    ParseFirstLine(RenderLine(s), Render(rest));
  }

  /** Whatever is rendered with plain label values is read back, sample by sample. */
  lemma {:induction false} ParseRendered(samples: seq<Sample>)
    requires Readable(samples)
    ensures Parse(Render(samples)) == Some(samples)
  {
    if samples != [] {
      assert samples[0] in samples;
      assert Readable(samples[1..]);
      ParseRendered(samples[1..]);
      hide Parse, RenderLine, Readable, IsNamed, NeedsNoEscape;
      ParseFirstSample(samples[0], samples[1..]);
      assert [samples[0]] + samples[1..] == samples;
    }
  }

  lemma {:induction false} RenderConcat(a: seq<Sample>, b: seq<Sample>)
    ensures Render(a + b) == Render(a) + Render(b)
  {
    if a == [] {
      assert a + b == b;
    } else {
      assert (a + b)[1..] == a[1..] + b;
      RenderConcat(a[1..], b);
    }
  }

  lemma {:induction false} RenderHasNoNul(samples: seq<Sample>)
    requires forall s <- samples :: IsNamed(s) && NUL !in s.text
    ensures NUL !in Render(samples)
  {
    if samples != [] {
      assert samples[0] in samples;
      RenderHasNoNul(samples[1..]);
      LineHasNoNul(samples[0]);
    }
  }

  lemma LineHasNoNul(s: Sample)
    requires IsNamed(s) && NUL !in s.text
    ensures NUL !in RenderLine(s)
  {
    PrintedCharacters(s.value);
    assert NUL !in s.name && NUL !in Opening(s.key) && NUL !in CLOSING;
  }

  // ----- which label values survive the format at all

  /**
    Decoding consumes at least one character for each it produces, leaves a suffix of its
    input, and keeps the length only when nothing was escaped.
   */
  lemma {:induction false} ReadQuotedConsumes(s: string)
    requires ReadQuoted(s).Some?
    ensures var (v, rest) := ReadQuoted(s).value;
      && |v| + |rest| + 1 <= |s|
      && rest == s[|s| - |rest|..]
      && (|v| + |rest| + 1 == |s| ==> forall c <- v :: c != '"' && c != '\\')
  {
    if s[0] == '\\' {
      ReadQuotedConsumes(s[2..]);
    } else if s[0] != '"' {
      ReadQuotedConsumes(s[1..]);
    }
  }

  lemma CutAt(a: string, b: string, c: string, d: string, e: string, rest: string)
    ensures a + b + (c + "\n" + d + e) + "\n" + rest == a + b + c + "\n" + (d + e + "\n" + rest)
  {
  }

  /** Reading this text gives `s` first. */
  ghost predicate ReadsFirst(text: string, s: Sample) {
    Parse(text).Some? && Parse(text).value != [] && Parse(text).value[0] == s
  }

  /** A line that ends within its label value is no sample line. */
  lemma UnclosedLine(name: string, key: string, first: string)
    requires IsName(name) && IsLabel(key) && '\n' !in first
    ensures var line := name + Opening(key) + first;
      '\n' !in line && !IsSkipped(line) && (ReadLine(line).Some? ==> |ReadLine(line).value.text| < |first|)
  {
    hide ReadQuoted, ReadNumeral, ReadLine;
    var line := name + Opening(key) + first;
    assert line[0] == name[0];
    ReadSplitLine(name, key, first);
    if ReadQuoted(first).Some? {
      ReadQuotedConsumes(first);
    }
  }

  /** A value with a raw line feed is cut at it, so it cannot come back whole. */
  lemma LineFeedLost(s: Sample, more: string)
    requires IsNamed(s) && '\n' in s.text
    ensures !ReadsFirst(RenderLine(s) + "\n" + more, s)
  {
    hide Print, ReadLine, Opening, IsName, IsLabel;
    var k := Span(s.text, NotLineFeed);
    if k == |s.text| {
      assert false;
    }
    var first, second := s.text[..k], s.text[k + 1..];
    var line := s.name + Opening(s.key) + first;
    var rest := second + (CLOSING + Print(s.value)) + "\n" + more;
    assert s.text + CLOSING + Print(s.value) == first + "\n" + second + (CLOSING + Print(s.value));
    CutAt(s.name, Opening(s.key), first, second, CLOSING + Print(s.value), more);
    UnclosedLine(s.name, s.key, first);
    hide Span;
    ParseFirstLine(line, rest);
  }

  lemma RenderOne(s: Sample)
    ensures Render([s]) == RenderLine(s) + "\n"
  {
    assert [s][1..] == [];
    assert Render([s]) == RenderLine(s) + "\n" + "";
  }

  /** On one line, the value comes back only if it holds no quote and no backslash. */
  lemma EscapeLost(s: Sample)
    requires IsNamed(s)
    ensures ReadLine(RenderLine(s)) == Some(s) ==> forall c <- s.text :: c != '"' && c != '\\'
  {
    hide Print, ReadNumeral, ReadQuoted, ReadLine, Opening;
    var tail := s.text + CLOSING + Print(s.value);
    ReadSplitLine(s.name, s.key, tail);
    if ReadLine(RenderLine(s)) == Some(s) {
      ReadQuotedConsumes(tail);
      var (v, rest) := ReadQuoted(tail).value;
      ClosingShape(s.value);
      var close := (CLOSING + Print(s.value))[1..];
      assert tail[|s.text| + 1..] == close;
      var k := |close| - |rest|;
      assert rest == close[k..];
      assert rest[0] == close[k];
    }
  }

  lemma FirstSampleSurvives(s: Sample, more: string)
    requires IsNamed(s)
    ensures ReadsFirst(RenderLine(s) + "\n" + more, s) ==> NeedsNoEscape(s.text)
  {
    hide RenderLine, ReadLine, IsNamed;
    if '\n' in s.text {
      LineFeedLost(s, more);
    } else {
      SingleLine(s);
      ParseFirstLine(RenderLine(s), more);
      EscapeLost(s);
    }
  }

  /**
    The exporters never escape label values. A rendered list of samples is read back exactly when
    no label value in it would have needed an escape.
   */
  lemma {:induction false} LabelsSurvive(samples: seq<Sample>)
    requires forall s <- samples :: IsNamed(s)
    ensures Parse(Render(samples)) == Some(samples) <==> forall s <- samples :: NeedsNoEscape(s.text)
  {
    if forall s <- samples :: NeedsNoEscape(s.text) {
      ParseRendered(samples);
    } else if Parse(Render(samples)) == Some(samples) {
      var s, rest := samples[0], samples[1..];
      assert s in samples;
      FirstSampleSurvives(s, Render(rest));
      SingleLine(s);
      ReadRenderedLine(s);
      ParseFirstLine(RenderLine(s), Render(rest));
      assert Parse(Render(rest)) == Some(rest);
      assert samples == [s] + rest;
      LabelsSurvive(rest);
    }
  }
}

/**
 AnthropicStreamUsageSink of internal/appkey/usage.go: token totals read off a byte stream
 that arrives in arbitrary pieces. JSON decoding is a parameter that may fail.
 */
module UsageSink {
  import opened Common
  import opened Sse

  datatype Counts = Counts(input: int, output: int)

  /** The fields of an event payload that the sink looks at. */
  datatype Payload = Payload(eventType: string, messageUsage: Counts, usage: Counts)

  type Decoder = string -> Option<Payload>

  const DATA_PREFIX := "data: "

  function TrimLineEnd(s: string): string {
    if s != "" && (s[|s| - 1] == '\r' || s[|s| - 1] == '\n') then TrimLineEnd(s[..|s| - 1]) else s
  }

  /** The counts a line reports: those of a message start or delta, zeros otherwise. */
  function Reported(dec: Decoder, line: string): Counts {
    var text := TrimLineEnd(line);
    if !(DATA_PREFIX <= text) then Counts(0, 0)
    else
      match dec(text[|DATA_PREFIX|..])
      case None => Counts(0, 0)
      case Some(ev) =>
        if ev.eventType == "message_start" then ev.messageUsage
        else if ev.eventType == "message_delta" then ev.usage
        else Counts(0, 0)
  }

  /** A positive count replaces the one before. */
  function Updated(t: Counts, r: Counts): Counts {
    Counts(if r.input > 0 then r.input else t.input, if r.output > 0 then r.output else t.output)
  }

  ghost function Fold(dec: Decoder, t: Counts, lines: seq<string>): Counts
    decreases |lines|
  {
    if lines == [] then t else Fold(dec, Updated(t, Reported(dec, lines[0])), lines[1..])
  }

  // ----- The lines of a text -----

  function Lines(s: string): seq<string> {
    if HasLine(s) then [s[..LineLength(s)]] + Lines(s[LineLength(s)..]) else []
  }

  function Leftover(s: string): string {
    if HasLine(s) then Leftover(s[LineLength(s)..]) else s
  }

  function Joined(lines: seq<string>): string {
    if lines == [] then "" else lines[0] + Joined(lines[1..])
  }

  predicate IsLine(l: string) {
    Complete(l) && OneLine(l[..|l| - 1])
  }

  lemma FirstLine(s: string)
    ensures if HasLine(s) then IsLine(s[..LineLength(s)]) else OneLine(s)
  {
  }

  lemma JoinedFirst(line: string, lines: seq<string>, left: string)
    ensures Joined([line] + lines) + left == line + (Joined(lines) + left)
  {
    assert ([line] + lines)[1..] == lines;
    Appended(line, Joined(lines), left);
  }

  lemma CutAt(s: string, n: nat)
    requires n <= |s|
    ensures s[..n] + s[n..] == s && "" + s == s
  {
  }

  /** A text is its complete lines and what is left. */
  lemma {:induction false} LinesPartition(s: string)
    ensures Joined(Lines(s)) + Leftover(s) == s
    decreases |s|
  {
    var n := LineLength(s);
    CutAt(s, n);
    if HasLine(s) {
      LinesPartition(s[n..]);
      JoinedFirst(s[..n], Lines(s[n..]), Leftover(s[n..]));
    }
  }

  /** Each complete line has its only newline at the end; the leftover has none. */
  lemma {:induction false} LinesAreLines(s: string)
    ensures OneLine(Leftover(s)) && forall i :: 0 <= i < |Lines(s)| ==> IsLine(Lines(s)[i])
    decreases |s|
  {
    FirstLine(s);
    if HasLine(s) {
      LinesAreLines(s[LineLength(s)..]);
    }
  }

  predicate AllLines(lines: seq<string>) {
    forall i :: 0 <= i < |lines| ==> IsLine(lines[i])
  }

  /** A text that starts with a line has it as its first. */
  lemma LineFirst(line: string, rest: string)
    requires IsLine(line)
    ensures var s := line + rest; HasLine(s) && LineLength(s) == |line| && s[..|line|] == line && s[|line|..] == rest
  {
    var body := line[..|line| - 1];
    assert line + rest == body + "\n" + rest;
    LineLengthOfPrinted(body, rest);
  }

  lemma {:induction false} LinesOfJoined(lines: seq<string>, left: string)
    requires AllLines(lines) && OneLine(left)
    ensures Lines(Joined(lines) + left) == lines && Leftover(Joined(lines) + left) == left
    decreases |lines|
  {
    if lines == [] {
      CutAt(left, 0);
      FirstLine(left);
    } else {
      var rest := Joined(lines[1..]) + left;
      Appended(lines[0], Joined(lines[1..]), left);
      LineFirst(lines[0], rest);
      LinesOfJoined(lines[1..], left);
    }
  }

  /** Lines and leftover are the only way to read a text as complete lines and an unfinished one. */
  lemma LinesExactlyWhen(s: string, lines: seq<string>, left: string)
    ensures lines == Lines(s) && left == Leftover(s) <==> s == Joined(lines) + left && AllLines(lines) && OneLine(left)
  {
    LinesPartition(s);
    LinesAreLines(s);
    if s == Joined(lines) + left && AllLines(lines) && OneLine(left) {
      LinesOfJoined(lines, left);
    }
  }

  /** Appending text adds the lines that the leftover completes. */
  lemma {:induction false} LinesAppend(s: string, p: string)
    ensures Lines(s + p) == Lines(s) + Lines(Leftover(s) + p)
    ensures Leftover(s + p) == Leftover(Leftover(s) + p)
    decreases |s|
  {
    if HasLine(s) {
      var n := LineLength(s);
      LineLengthStays(s, p);
      assert (s + p)[..n] == s[..n] && (s + p)[n..] == s[n..] + p;
      LinesAppend(s[n..], p);
    }
  }

  lemma {:induction false} FoldAppend(dec: Decoder, t: Counts, a: seq<string>, b: seq<string>)
    ensures Fold(dec, t, a + b) == Fold(dec, Fold(dec, t, a), b)
    decreases |a|
  {
    if a == [] {
      assert a + b == b;
    } else {
      assert (a + b)[1..] == a[1..] + b;
      FoldAppend(dec, Updated(t, Reported(dec, a[0])), a[1..], b);
    }
  }

  // ----- The sink -----

  class Sink {
    const dec: Decoder
    var buf: string
    var input: int
    var output: int

    constructor (dec: Decoder)
      ensures this.dec == dec && Absorbed("")
    {
      this.dec := dec;
      buf, input, output := "", 0, 0;
    }

    /** The sink is as a fold over the complete lines of the whole stream leaves it. */
    ghost predicate Absorbed(stream: string)
      reads this
    {
      buf == Leftover(stream) && Counts(input, output) == Fold(dec, Counts(0, 0), Lines(stream))
    }

    method Write(p: string, ghost stream: string) returns (n: nat)
      requires Absorbed(stream)
      modifies this
      ensures Absorbed(stream + p) && n == |p|
    {
      LinesAppend(stream, p);
      FoldAppend(dec, Counts(0, 0), Lines(stream), Lines(buf + p));
      buf := buf + p;
      ghost var totals, left := Fold(dec, Counts(input, output), Lines(buf)), Leftover(buf);
      while HasLine(buf)
        invariant Fold(dec, Counts(input, output), Lines(buf)) == totals && Leftover(buf) == left
        decreases |buf|
      {
        var k := LineLength(buf);
        var line := buf[..k];
        assert Lines(buf)[1..] == Lines(buf[k..]);
        buf := buf[k..];
        Observe(line);
      }
      n := |p|;
    }

    /** The body of the loop in Write, once a line has been taken off the buffer. */
    method Observe(line: string)
      modifies this`input, this`output
      ensures Counts(input, output) == Updated(old(Counts(input, output)), Reported(dec, line))
    {
      var text := TrimLineEnd(line);
      if !(DATA_PREFIX <= text) {
        return;
      }
      var ev := dec(text[|DATA_PREFIX|..]);
      if ev.None? {
        return;
      }
      if ev.value.eventType == "message_start" {
        if ev.value.messageUsage.input > 0 {
          input := ev.value.messageUsage.input;
        }
        if ev.value.messageUsage.output > 0 {
          output := ev.value.messageUsage.output;
        }
      } else if ev.value.eventType == "message_delta" {
        if ev.value.usage.input > 0 {
          input := ev.value.usage.input;
        }
        if ev.value.usage.output > 0 {
          output := ev.value.usage.output;
        }
      }
    }

    method Totals(ghost stream: string) returns (input: int, output: int)
      requires Absorbed(stream)
      ensures input == LatestInput(dec, Lines(stream))
      ensures output == LatestOutput(dec, Lines(stream))
    {
      FoldIsLatest(dec, Lines(stream));
      input, output := this.input, this.output;
    }
  }

  /** However a stream is cut into writes, the sink ends as one fold over the whole stream. */
  method WriteAll(sink: Sink, pieces: seq<string>)
    requires sink.Absorbed("")
    modifies sink
    ensures sink.Absorbed(Joined(pieces))
  {
    ghost var done := "";
    for i := 0 to |pieces|
      invariant sink.Absorbed(done) && done + Joined(pieces[i..]) == Joined(pieces)
    {
      assert pieces[i..][1..] == pieces[i + 1..];
      Appended(done, pieces[i], Joined(pieces[i + 1..]));
      var _ := sink.Write(pieces[i], done);
      done := done + pieces[i];
    }
    assert done + "" == done;
  }

  // ----- What the totals mean -----

  /** The last positive input count that a line reported, or zero; and the same for output. */
  ghost function LatestInput(dec: Decoder, lines: seq<string>): int {
    if lines == [] then 0
    else
      var last := Reported(dec, lines[|lines| - 1]).input;
      if last > 0 then last else LatestInput(dec, lines[..|lines| - 1])
  }

  ghost function LatestOutput(dec: Decoder, lines: seq<string>): int {
    if lines == [] then 0
    else
      var last := Reported(dec, lines[|lines| - 1]).output;
      if last > 0 then last else LatestOutput(dec, lines[..|lines| - 1])
  }

  lemma {:induction false} FoldIsLatest(dec: Decoder, lines: seq<string>)
    ensures Fold(dec, Counts(0, 0), lines) == Counts(LatestInput(dec, lines), LatestOutput(dec, lines))
    decreases |lines|
  {
    if lines != [] {
      var before, last := lines[..|lines| - 1], lines[|lines| - 1];
      assert lines == before + [last];
      FoldAppend(dec, Counts(0, 0), before, [last]);
      FoldIsLatest(dec, before);
      assert Fold(dec, Fold(dec, Counts(0, 0), before), [last])
        == Updated(Fold(dec, Counts(0, 0), before), Reported(dec, last));
    }
  }

  // ----- The totals on the payloads themselves -----

  /** Text that does not itself end in a line end. */
  predicate Bare(text: string) {
    text != "" ==> text[|text| - 1] != '\r' && text[|text| - 1] != '\n'
  }

  lemma TrimsOne(text: string, c: char)
    requires c == '\r' || c == '\n'
    ensures TrimLineEnd(text + [c]) == TrimLineEnd(text)
  {
    var s := text + [c];
    assert s[..|s| - 1] == text;
  }

  lemma TrimsBare(text: string, end: string)
    requires Bare(text) && (end == "\n" || end == "\r\n")
    ensures TrimLineEnd(text + end) == text
  {
    if end == "\n" {
      TrimsOne(text, '\n');
    } else {
      assert text + end == (text + "\r") + "\n";
      TrimsOne(text + "\r", '\n');
      TrimsOne(text, '\r');
    }
  }

  /** What a data line reports is in its decoded payload: under the message at its start, on its own in a delta. */
  lemma DataLineReports(dec: Decoder, payload: string, end: string)
    requires Bare("data: " + payload) && (end == "\n" || end == "\r\n")
    ensures Reported(dec, "data: " + payload + end) ==
      match dec(payload)
      case None => Counts(0, 0)
      case Some(ev) =>
        if ev.eventType == "message_start" then ev.messageUsage
        else if ev.eventType == "message_delta" then ev.usage
        else Counts(0, 0)
  {
    TrimsBare("data: " + payload, end);
    assert ("data: " + payload)[6..] == payload;
  }

  /** Any other line reports nothing. */
  lemma OtherLineReportsNothing(dec: Decoder, text: string, end: string)
    requires Bare(text) && (end == "\n" || end == "\r\n") && !("data: " <= text)
    ensures Reported(dec, text + end) == Counts(0, 0)
  {
    TrimsBare(text, end);
  }

  /** The lines that carry the payloads. */
  ghost function DataLines(payloads: seq<string>): seq<string> {
    seq(|payloads|, i requires 0 <= i < |payloads| => "data: " + payloads[i] + "\n")
  }

  /** The last positive count among the payloads. */
  ghost function LastPositive(counts: seq<int>): int {
    if counts == [] then 0
    else if counts[|counts| - 1] > 0 then counts[|counts| - 1]
    else LastPositive(counts[..|counts| - 1])
  }

  /** The input and output counts of a payload that starts or updates a message. */
  ghost function CountsOf(dec: Decoder, payload: string): Counts {
    match dec(payload)
    case None => Counts(0, 0)
    case Some(ev) =>
      if ev.eventType == "message_start" then ev.messageUsage
      else if ev.eventType == "message_delta" then ev.usage
      else Counts(0, 0)
  }

  ghost function Inputs(dec: Decoder, payloads: seq<string>): seq<int> {
    seq(|payloads|, i requires 0 <= i < |payloads| => CountsOf(dec, payloads[i]).input)
  }

  ghost function Outputs(dec: Decoder, payloads: seq<string>): seq<int> {
    seq(|payloads|, i requires 0 <= i < |payloads| => CountsOf(dec, payloads[i]).output)
  }

  /** A stream of data lines totals the last positive counts of its payloads, input and output apart. */
  lemma {:induction false} PayloadTotals(dec: Decoder, payloads: seq<string>)
    requires forall i :: 0 <= i < |payloads| ==> Bare("data: " + payloads[i])
    ensures LatestInput(dec, DataLines(payloads)) == LastPositive(Inputs(dec, payloads))
    ensures LatestOutput(dec, DataLines(payloads)) == LastPositive(Outputs(dec, payloads))
    decreases |payloads|
  {
    if payloads != [] {
      var before, last := payloads[..|payloads| - 1], payloads[|payloads| - 1];
      PayloadTotals(dec, before);
      DataLineReports(dec, last, "\n");
      var n := |payloads| - 1;
      assert DataLines(payloads)[..n] == DataLines(before);
      assert Inputs(dec, payloads)[..n] == Inputs(dec, before) && Outputs(dec, payloads)[..n] == Outputs(dec, before);
    }
  }
}

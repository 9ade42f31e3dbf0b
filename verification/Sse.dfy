/**
 Server-sent event lines: the reader behind sseStream.Next in
 internal/provider/openaicompat/openaicompat.go and the relay loop of
 internal/transport/server.go that prints what it returns. Text is a sequence of code points.
 */
module Sse {

  /** The white space that the Go library trims: unicode.IsSpace. */
  predicate IsSpace(c: char) {
    || c in "\t\n\r " || c == '\U{B}' || c == '\U{C}' || c == '\U{85}' || c == '\U{A0}'
    || c == '\U{1680}' || '\U{2000}' <= c <= '\U{200A}' || c == '\U{2028}' || c == '\U{2029}'
    || c == '\U{202F}' || c == '\U{205F}' || c == '\U{3000}'
  }

  function TrimLeft(s: string): string {
    if s != "" && IsSpace(s[0]) then TrimLeft(s[1..]) else s
  }

  function TrimRight(s: string): string {
    if s != "" && IsSpace(s[|s| - 1]) then TrimRight(s[..|s| - 1]) else s
  }

  function Trim(s: string): string {
    TrimRight(TrimLeft(s))
  }

  predicate Trimmed(s: string) {
    s != "" ==> !IsSpace(s[0]) && !IsSpace(s[|s| - 1])
  }

  predicate OneLine(s: string) {
    forall i :: 0 <= i < |s| ==> s[i] != '\n'
  }

  /** How a byte stream ends. */
  datatype End = Eof | Broken(error: string)

  /** The length of the first line, its newline included. */
  function LineLength(s: string): (n: nat)
    ensures n <= |s| && (s != "" ==> n > 0)
    ensures forall i :: 0 <= i < n - 1 ==> s[i] != '\n'
    ensures n < |s| ==> s[n - 1] == '\n'
  {
    if s == "" then 0 else if s[0] == '\n' then 1 else 1 + LineLength(s[1..])
  }

  predicate Complete(line: string) {
    line != "" && line[|line| - 1] == '\n'
  }

  /** bufio.Reader over the upstream body, as far as reading up to a newline goes. */
  class Reader {
    var rest: string
    const end: End

    constructor (text: string, end: End)
      ensures rest == text && this.end == end
    {
      rest, this.end := text, end;
    }

    /** The next line; ended is set when the text or the connection gave out before a newline. */
    method ReadLine() returns (line: string, ended: bool)
      modifies this
      ensures line == old(rest)[..LineLength(old(rest))] && rest == old(rest)[LineLength(old(rest))..]
      ensures ended == !Complete(line)
    {
      var n := LineLength(rest);
      line, rest := rest[..n], rest[n..];
      ended := !Complete(line);
    }
  }

  // ----- sseStream.Next -----

  datatype Item = Chunk(line: string) | Ended(end: End)

  datatype Read = Read(item: Item, rest: string)

  const DONE := "data: [DONE]"

  /** The first line of s that holds a colon, trimmed; a done marker or the end of s ends the stream. */
  function NextItem(s: string, end: End): (r: Read)
    ensures |r.rest| <= |s| && (r.item.Chunk? ==> |r.rest| < |s|)
    decreases |s|
  {
    var n := LineLength(s);
    var line, rest := s[..n], s[n..];
    if !Complete(line) && (line == "" || end.Broken?) then Read(Ended(end), rest)
    else if Trim(line) == DONE then Read(Ended(Eof), rest)
    else if ':' in Trim(line) then Read(Chunk(Trim(line)), rest)
    else NextItem(rest, end)
  }

  class Stream {
    const reader: Reader

    constructor (reader: Reader)
      ensures this.reader == reader
    {
      this.reader := reader;
    }

    method Next() returns (item: Item)
      modifies reader
      ensures Read(item, reader.rest) == NextItem(old(reader.rest), reader.end)
    {
      while true
        invariant NextItem(reader.rest, reader.end) == NextItem(old(reader.rest), reader.end)
        decreases |reader.rest|
      {
        ghost var before := reader.rest;
        var line, ended := reader.ReadLine();
        if ended && (reader.end.Broken? || |line| == 0) {
          return Ended(reader.end);
        }
        line := Trim(line);
        if |line| != 0 {
          if "data: " <= line {
            assert ':' in line by { assert line[4] == ':'; }
            DonePayload(line);
            if line[6..] == "[DONE]" {
              return Ended(Eof);
            }
            return Chunk(line);
          }
          assert line != DONE;
          if ':' in line {
            return Chunk(line);
          }
        }
      }
    }
  }

  lemma DonePayload(line: string)
    requires "data: " <= line
    ensures line[6..] == "[DONE]" <==> line == DONE
  {
    assert line == "data: " + line[6..];
    assert DONE[6..] == "[DONE]";
  }

  // ----- The relay -----

  /** Everything the stream delivers, up to its end. */
  datatype Delivery = Delivery(chunks: seq<string>, end: End)

  ghost function Drain(s: string, end: End): (d: Delivery)
    decreases |s|
  {
    var r := NextItem(s, end);
    match r.item
    case Chunk(line) => var d := Drain(r.rest, end); Delivery([line] + d.chunks, d.end)
    case Ended(e) => Delivery([], e)
  }

  ghost function Framed(chunks: seq<string>): string {
    if chunks == [] then "" else chunks[0] + "\n\n" + Framed(chunks[1..])
  }

  /** What the client receives. */
  ghost function Printed(d: Delivery): string {
    Framed(d.chunks) + if d.end.Eof? then DONE + "\n\n" else ""
  }

  method Relay(stream: Stream) returns (out: string, streamErr: End)
    modifies stream.reader
    ensures out == Printed(Drain(old(stream.reader.rest), stream.reader.end))
    ensures streamErr == Drain(old(stream.reader.rest), stream.reader.end).end
  {
    out := "";
    ghost var whole := Drain(stream.reader.rest, stream.reader.end);
    ghost var left := whole;
    while true
      invariant left == Drain(stream.reader.rest, stream.reader.end)
      invariant out + Printed(left) == Printed(whole) && left.end == whole.end
      decreases |stream.reader.rest|
    {
      ghost var before := stream.reader.rest;
      var item := stream.Next();
      DrainStep(before, stream.reader.end);
      if item.Ended? {
        if item.end == Eof {
          out := out + (DONE + "\n\n");
        }
        assert Printed(left) == if item.end.Eof? then DONE + "\n\n" else "";
        return out, item.end;
      }
      left := Drain(stream.reader.rest, stream.reader.end);
      Appended(out, item.line + "\n\n", Printed(left));
      out := out + (item.line + "\n\n");
    }
  }

  lemma Appended(a: string, b: string, c: string)
    ensures a + (b + c) == (a + b) + c
  {
  }

  lemma DrainStep(s: string, end: End)
    ensures NextItem(s, end).item.Chunk? ==> Drain(s, end).end == Drain(NextItem(s, end).rest, end).end
    ensures NextItem(s, end).item.Chunk? ==>
      Printed(Drain(s, end)) == NextItem(s, end).item.line + "\n\n" + Printed(Drain(NextItem(s, end).rest, end))
    ensures NextItem(s, end).item.Ended? ==> Drain(s, end) == Delivery([], NextItem(s, end).item.end)
  {
    var r := NextItem(s, end);
    if r.item.Chunk? {
      var d := Drain(r.rest, end);
      assert Drain(s, end) == Delivery([r.item.line] + d.chunks, d.end);
      PrintedSplit(r.item.line, d);
    }
  }

  /** The wire format: chunks end in a blank line, and a clean end is marked. */
  lemma PrintedEnds(e: string)
    ensures Printed(Delivery([], Eof)) == "data: [DONE]\n\n" && Printed(Delivery([], Broken(e))) == ""
  {
    assert DONE + "\n\n" == "data: [DONE]\n\n";
  }

  lemma PrintedSplit(chunk: string, d: Delivery)
    ensures Printed(Delivery([chunk] + d.chunks, d.end)) == chunk + "\n\n" + Printed(d)
  {
    assert ([chunk] + d.chunks)[1..] == d.chunks;
  }

  // ----- Trimming -----

  lemma {:induction false} TrimLeftIsSuffix(s: string) returns (k: nat)
    ensures k <= |s| && TrimLeft(s) == s[k..] && (k < |s| ==> !IsSpace(s[k]))
    decreases |s|
  {
    if s != "" && IsSpace(s[0]) {
      k := TrimLeftIsSuffix(s[1..]);
      k := k + 1;
    } else {
      k := 0;
    }
  }

  lemma {:induction false} TrimRightIsPrefix(s: string) returns (k: nat)
    ensures k <= |s| && TrimRight(s) == s[..k] && (k > 0 ==> !IsSpace(s[k - 1]))
    decreases |s|
  {
    if s != "" && IsSpace(s[|s| - 1]) {
      k := TrimRightIsPrefix(s[..|s| - 1]);
      assert s[..|s| - 1][..k] == s[..k];
    } else {
      k := |s|;
    }
  }

  /** A trimmed line is trimmed, and stays on one line. */
  lemma TrimOfLine(s: string)
    requires forall i :: 0 <= i < |s| - 1 ==> s[i] != '\n'
    ensures Trimmed(Trim(s)) && OneLine(Trim(s))
  {
    var k := TrimLeftIsSuffix(s);
    var m := TrimRightIsPrefix(s[k..]);
    var t := Trim(s);
    assert t == s[k..][..m];
    forall i | 0 <= i < |t| ensures t[i] != '\n' {
      assert t[i] == s[k + i];
      if k + i == |s| - 1 { assert t[|t| - 1] == t[i]; }
    }
  }

  /** Trimming removes exactly the newline that follows a line with no space at either end. */
  lemma TrimOfPrinted(c: string)
    requires c != "" && !IsSpace(c[0]) && !IsSpace(c[|c| - 1])
    ensures Trim(c + "\n") == c
  {
    assert TrimLeft(c + "\n") == c + "\n";
    assert (c + "\n")[..|c + "\n"| - 1] == c;
    assert TrimRight(c) == c;
  }

  lemma {:induction false} LineLengthOfPrinted(c: string, tail: string)
    requires OneLine(c)
    ensures LineLength(c + "\n" + tail) == |c| + 1
  {
    var s := c + "\n" + tail;
    if c != "" {
      assert s[1..] == c[1..] + "\n" + tail;
      LineLengthOfPrinted(c[1..], tail);
    }
  }

  // ----- An unfinished last line -----

  predicate HasLine(s: string) {
    Complete(s[..LineLength(s)])
  }

  /** Text that follows a complete line changes neither that line nor where it ends. */
  lemma {:induction false} LineLengthStays(s: string, p: string)
    requires HasLine(s)
    ensures LineLength(s + p) == LineLength(s)
    decreases |s|
  {
    if s[0] != '\n' {
      assert (s + p)[1..] == s[1..] + p;
      assert s[1..][..LineLength(s[1..])] == s[1..LineLength(s)];
      LineLengthStays(s[1..], p);
    }
  }

  lemma {:induction false} LineLengthWhole(c: string)
    requires OneLine(c)
    ensures LineLength(c) == |c|
    decreases |c|
  {
    if c != "" { LineLengthWhole(c[1..]); }
  }

  lemma {:induction false} TrimLeftNewline(s: string)
    ensures TrimLeft(s + "\n") == if TrimLeft(s) == "" then "" else TrimLeft(s) + "\n"
    decreases |s|
  {
    var t := s + "\n";
    if s == "" {
      assert t[1..] == "";
    } else if IsSpace(s[0]) {
      assert t[1..] == s[1..] + "\n";
      TrimLeftNewline(s[1..]);
    }
  }

  lemma TrimNewline(s: string)
    ensures Trim(s + "\n") == Trim(s)
  {
    TrimLeftNewline(s);
    var t := TrimLeft(s) + "\n";
    assert t[..|t| - 1] == TrimLeft(s);
  }

  /** Reading on after one more newline: the same item, and the same rest with the newline behind it. */
  ghost predicate OneNewlineApart(r: Read, r': Read) {
    r'.item == r.item && (r'.rest == r.rest + "\n" || (r.rest == "" && r'.rest == ""))
  }

  lemma UnfinishedItem(s: string)
    requires s != "" && !HasLine(s)
    ensures OneNewlineApart(NextItem(s, Eof), NextItem(s + "\n", Eof))
  {
    assert OneLine(s);
    LineLengthWhole(s);
    assert s + "\n" + "" == s + "\n";
    LineLengthOfPrinted(s, "");
    TrimNewline(s);
    var t := s + "\n";
    assert s[..|s|] == s && s[|s|..] == "" && t[..|t|] == t && t[|t|..] == "";
  }

  lemma {:induction false} ItemNewline(s: string)
    ensures OneNewlineApart(NextItem(s, Eof), NextItem(s + "\n", Eof))
    decreases |s|
  {
    if s == "" {
      BlankLine("", Eof);
      assert "\n" + "" == "" + "\n";
    } else if HasLine(s) {
      var n, t := LineLength(s), s + "\n";
      LineLengthStays(s, "\n");
      assert t[..n] == s[..n] && t[n..] == s[n..] + "\n";
      ItemNewline(s[n..]);
    } else {
      UnfinishedItem(s);
    }
  }

  /** At a clean end the last line counts with or without its newline. */
  lemma {:induction false} LastNewlineIsOptional(s: string)
    ensures Drain(s + "\n", Eof) == Drain(s, Eof)
    decreases |s|
  {
    ItemNewline(s);
    var r := NextItem(s, Eof);
    if r.item.Chunk? {
      LastNewlineIsOptional(r.rest);
    }
  }

  /** A text of complete lines has a first one, and complete lines behind it. */
  lemma CompleteLines(s: string)
    requires Complete(s)
    ensures HasLine(s) && (s[LineLength(s)..] == "" || Complete(s[LineLength(s)..]))
  {
    var n := LineLength(s);
    if n == |s| {
      assert s[..n] == s;
    }
  }

  lemma FirstLineStays(s: string, tail: string)
    requires HasLine(s)
    ensures LineLength(s + tail) == LineLength(s)
    ensures (s + tail)[..LineLength(s)] == s[..LineLength(s)]
    ensures (s + tail)[LineLength(s)..] == s[LineLength(s)..] + tail
  {
    LineLengthStays(s, tail);
  }

  /** The same item is read, and behind a chunk the same complete lines follow, with the tail behind them. */
  ghost predicate TailApart(r: Read, r': Read, tail: string) {
    r'.item == r.item && (r.item.Chunk? ==> (r.rest == "" || Complete(r.rest)) && r'.rest == r.rest + tail)
  }

  lemma {:induction false} ItemBeforeBreak(s: string, tail: string, e: string)
    requires (s == "" || Complete(s)) && OneLine(tail)
    ensures TailApart(NextItem(s, Broken(e)), NextItem(s + tail, Broken(e)), tail)
    decreases |s|
  {
    if s == "" {
      assert s + tail == tail;
      LineLengthWhole(tail);
      assert tail[..|tail|] == tail;
    } else {
      CompleteLines(s);
      FirstLineStays(s, tail);
      ItemBeforeBreak(s[LineLength(s)..], tail, e);
    }
  }

  /** When the connection breaks, the unfinished line is dropped and all before it delivered. */
  lemma {:induction false} BrokenLineIsDropped(s: string, tail: string, e: string)
    requires (s == "" || Complete(s)) && OneLine(tail)
    ensures Drain(s + tail, Broken(e)) == Drain(s, Broken(e))
    decreases |s|
  {
    ItemBeforeBreak(s, tail, e);
    var r := NextItem(s, Broken(e));
    if r.item.Chunk? {
      BrokenLineIsDropped(r.rest, tail, e);
    }
  }

  // ----- Round trip -----

  /** What survives the relay: a trimmed line with a colon that is not the done marker. */
  predicate Relayable(c: string) {
    Trimmed(c) && OneLine(c) && ':' in c && c != DONE
  }

  predicate AllRelayable(chunks: seq<string>) {
    forall i :: 0 <= i < |chunks| ==> Relayable(chunks[i])
  }

  lemma {:induction false} ItemIsRelayable(s: string, end: End)
    ensures NextItem(s, end).item.Chunk? ==> Relayable(NextItem(s, end).item.line)
    decreases |s|
  {
    var n := LineLength(s);
    TrimOfLine(s[..n]);
    if s != "" {
      ItemIsRelayable(s[n..], end);
    }
  }

  lemma {:induction false} DeliveredAreRelayable(s: string, end: End)
    ensures AllRelayable(Drain(s, end).chunks)
    decreases |s|
  {
    ItemIsRelayable(s, end);
    var r := NextItem(s, end);
    if r.item.Chunk? {
      DeliveredAreRelayable(r.rest, end);
    }
  }

  lemma BlankLine(tail: string, end: End)
    ensures NextItem("\n" + tail, end) == NextItem(tail, end)
  {
    var s := "\n" + tail;
    assert s[..1] == "\n" && s[1..] == tail;
    assert "\n"[1..] == "";
  }

  lemma PrintedChunk(c: string, tail: string)
    requires Relayable(c)
    ensures var d := Drain(tail, Eof); Drain(c + "\n\n" + tail, Eof) == Delivery([c] + d.chunks, d.end)
  {
    var s := c + "\n\n" + tail;
    assert s == c + "\n" + ("\n" + tail);
    LineLengthOfPrinted(c, "\n" + tail);
    assert s[..|c| + 1] == c + "\n" && s[|c| + 1..] == "\n" + tail;
    TrimOfPrinted(c);
    assert NextItem(s, Eof) == Read(Chunk(c), "\n" + tail);
    BlankLine(tail, Eof);
  }

  lemma DoneMarker(tail: string)
    ensures Drain(DONE + "\n\n" + tail, Eof) == Delivery([], Eof)
  {
    var s := DONE + "\n\n" + tail;
    assert s == DONE + "\n" + ("\n" + tail);
    LineLengthOfPrinted(DONE, "\n" + tail);
    assert s[..|DONE| + 1] == DONE + "\n";
    TrimOfPrinted(DONE);
  }

  lemma {:induction false} PrintedChunks(d: Delivery)
    requires AllRelayable(d.chunks)
    ensures Drain(Printed(d), Eof) == Delivery(d.chunks, Eof)
    decreases |d.chunks|
  {
    if d.chunks == [] {
      DoneMarker("");
      assert DONE + "\n\n" + "" == DONE + "\n\n";
      assert "" + (DONE + "\n\n") == DONE + "\n\n";
    } else {
      var rest := Delivery(d.chunks[1..], d.end);
      assert [d.chunks[0]] + rest.chunks == d.chunks;
      PrintedSplit(d.chunks[0], rest);
      PrintedChunks(rest);
      PrintedChunk(d.chunks[0], Printed(rest));
    }
  }

  /**
   Re-parsing the relay's output, for every upstream text and however the upstream ended, gives
   the chunks the upstream gave, and then the end of the stream.
   */
  lemma RelayRoundTrip(s: string, end: End)
    ensures Drain(Printed(Drain(s, end)), Eof) == Delivery(Drain(s, end).chunks, Eof)
  {
    DeliveredAreRelayable(s, end);
    PrintedChunks(Drain(s, end));
  }

  /** Chunks that a hook rewrote come back from the printed stream exactly when each is relayable. */
  lemma ReparsedExactlyWhen(chunks: seq<string>)
    ensures Drain(Printed(Delivery(chunks, Eof)), Eof).chunks == chunks <==> AllRelayable(chunks)
  {
    DeliveredAreRelayable(Printed(Delivery(chunks, Eof)), Eof);
    if AllRelayable(chunks) {
      PrintedChunks(Delivery(chunks, Eof));
    }
  }
}

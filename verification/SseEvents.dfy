/**
 anthropicStream.readEvent of internal/provider/anthropic/anthropic.go against the printer of
 event and data lines in internal/provider/bedrock/bedrock.go.
 */
module SseEvents {
  import opened Sse

  datatype Event = Event(eventType: string, data: string)

  datatype Result = Got(event: Event) | Stopped(end: End)

  /** The fields seen since the last event was returned. */
  function Absorb(e: Event, line: string): Event {
    if "event: " <= line then e.(eventType := line[7..])
    else if "data: " <= line then e.(data := line[6..])
    else e
  }

  predicate Full(e: Event) {
    e.eventType != "" && e.data != ""
  }

  /** The event that s holds first, given the fields already seen, and what follows it. */
  datatype Found = Found(result: Result, rest: string)

  ghost function FirstEvent(s: string, end: End, seen: Event): (f: Found)
    ensures |f.rest| <= |s| && (f.result.Got? && s != "" ==> |f.rest| < |s|)
    decreases |s|
  {
    var n := LineLength(s);
    var line, rest := s[..n], s[n..];
    var fields := Absorb(seen, Trim(line));
    if !Complete(line) then
      Found(if end.Broken? then Stopped(end) else if Full(fields) then Got(fields) else Stopped(Eof), rest)
    else if Trim(line) == "" && Full(seen) then Found(Got(seen), rest)
    else FirstEvent(rest, end, fields)
  }

  method ReadEvent(reader: Reader) returns (result: Result)
    modifies reader
    ensures Found(result, reader.rest) == FirstEvent(old(reader.rest), reader.end, Event("", ""))
  {
    var eventType, data := "", "";
    while true
      invariant FirstEvent(reader.rest, reader.end, Event(eventType, data))
             == FirstEvent(old(reader.rest), reader.end, Event("", ""))
      decreases |reader.rest|
    {
      var line, ended := reader.ReadLine();
      if ended && reader.end.Broken? {
        return Stopped(reader.end);
      }
      line := Trim(line);
      if line == "" {
        if eventType != "" && data != "" {
          return Got(Event(eventType, data));
        }
        if ended {
          return Stopped(Eof);
        }
        continue;
      }
      if "event: " <= line {
        eventType := line[7..];
      } else if "data: " <= line {
        data := line[6..];
      }
      if ended {
        if eventType != "" && data != "" {
          return Got(Event(eventType, data));
        }
        return Stopped(Eof);
      }
    }
  }

  // ----- The printer -----

  function PrintedEvent(e: Event): string {
    "event: " + e.eventType + "\n" + "data: " + e.data + "\n" + "\n"
  }

  function PrintedEvents(es: seq<Event>): string {
    if es == [] then "" else PrintedEvent(es[0]) + PrintedEvents(es[1..])
  }

  /** All events of a text, and how it ends. */
  datatype Events = Events(events: seq<Event>, end: End)

  ghost function ReadAll(s: string, end: End): (r: Events)
    decreases |s|
  {
    NothingInEmpty(end);
    var f := FirstEvent(s, end, Event("", ""));
    match f.result
    case Got(e) => var r := ReadAll(f.rest, end); Events([e] + r.events, r.end)
    case Stopped(e) => Events([], e)
  }

  lemma NothingInEmpty(end: End)
    ensures FirstEvent("", end, Event("", "")) == Found(Stopped(end), "")
  {
    assert Trim("") == "";
  }

  // ----- Round trip -----

  /** A field that a printed line gives back: not empty, on one line, no space at its end. */
  predicate Printable(field: string) {
    field != "" && OneLine(field) && !IsSpace(field[|field| - 1])
  }

  predicate PrintableEvent(e: Event) {
    Printable(e.eventType) && Printable(e.data)
  }

  predicate AllPrintable(es: seq<Event>) {
    forall i :: 0 <= i < |es| ==> PrintableEvent(es[i])
  }

  predicate SoFarPrintable(e: Event) {
    (e.eventType != "" ==> Printable(e.eventType)) && (e.data != "" ==> Printable(e.data))
  }

  lemma SuffixIsPrintable(line: string, k: nat)
    requires Trimmed(line) && OneLine(line) && k < |line|
    ensures Printable(line[k..])
  {
    var f := line[k..];
    forall i | 0 <= i < |f| ensures f[i] != '\n' { assert f[i] == line[k + i]; }
  }

  lemma AbsorbKeeps(e: Event, line: string)
    requires SoFarPrintable(e) && Trimmed(line) && OneLine(line)
    ensures SoFarPrintable(Absorb(e, line))
  {
    if "event: " <= line && |line| > 7 { SuffixIsPrintable(line, 7); }
    if "data: " <= line && |line| > 6 { SuffixIsPrintable(line, 6); }
  }

  lemma {:induction false} EventIsPrintable(s: string, end: End, seen: Event)
    requires SoFarPrintable(seen)
    ensures var f := FirstEvent(s, end, seen); f.result.Got? ==> PrintableEvent(f.result.event)
    decreases |s|
  {
    var n := LineLength(s);
    TrimOfLine(s[..n]);
    AbsorbKeeps(seen, Trim(s[..n]));
    if Complete(s[..n]) {
      EventIsPrintable(s[n..], end, Absorb(seen, Trim(s[..n])));
    }
  }

  lemma {:induction false} ReadArePrintable(s: string, end: End)
    ensures AllPrintable(ReadAll(s, end).events)
    decreases |s|
  {
    NothingInEmpty(end);
    EventIsPrintable(s, end, Event("", ""));
    var f := FirstEvent(s, end, Event("", ""));
    if f.result.Got? {
      ReadArePrintable(f.rest, end);
    }
  }

  /** One line that is neither blank nor the last is absorbed and passed over. */
  lemma OverLine(line: string, tail: string, end: End, seen: Event)
    requires OneLine(line) && Trimmed(line) && line != ""
    ensures FirstEvent(line + "\n" + tail, end, seen) == FirstEvent(tail, end, Absorb(seen, line))
  {
    var s := line + "\n" + tail;
    LineLengthOfPrinted(line, tail);
    assert s[..|line| + 1] == line + "\n" && s[|line| + 1..] == tail;
    TrimOfPrinted(line);
  }

  lemma BlankEnds(tail: string, end: End, seen: Event)
    requires Full(seen)
    ensures FirstEvent("\n" + tail, end, seen) == Found(Got(seen), tail)
  {
    var s := "\n" + tail;
    assert s[..1] == "\n" && s[1..] == tail;
    assert "\n"[1..] == "";
  }

  lemma Labelled(prefix: string, field: string)
    requires prefix != "" && Trimmed(prefix + "x") && OneLine(prefix) && Printable(field)
    ensures var line := prefix + field; OneLine(line) && Trimmed(line) && line != "" && line[|prefix|..] == field
  {
    assert prefix[0] == (prefix + "x")[0];
    assert (prefix + field)[|prefix + field| - 1] == field[|field| - 1];
  }

  lemma PrintedGivesEvent(e: Event, tail: string, end: End)
    requires PrintableEvent(e)
    ensures FirstEvent(PrintedEvent(e) + tail, end, Event("", "")) == Found(Got(e), tail)
  {
    var first, second := "event: " + e.eventType, "data: " + e.data;
    Labelled("event: ", e.eventType);
    Labelled("data: ", e.data);
    assert PrintedEvent(e) + tail == first + "\n" + (second + "\n" + ("\n" + tail));
    OverLine(first, second + "\n" + ("\n" + tail), end, Event("", ""));
    assert Absorb(Event("", ""), first) == Event(e.eventType, "");
    OverLine(second, "\n" + tail, end, Event(e.eventType, ""));
    assert second[0] != 'e';
    assert Absorb(Event(e.eventType, ""), second) == e;
    BlankEnds(tail, end, e);
  }

  lemma ReadsOne(e: Event, tail: string, end: End)
    requires PrintableEvent(e)
    ensures var r := ReadAll(tail, end); ReadAll(PrintedEvent(e) + tail, end) == Events([e] + r.events, r.end)
  {
    PrintedGivesEvent(e, tail, end);
  }

  /** The events printed in front of a text. */
  function PrintedOnto(es: seq<Event>, tail: string): string {
    if es == [] then tail else PrintedEvent(es[0]) + PrintedOnto(es[1..], tail)
  }

  lemma {:induction false} PrintedOntoEmpty(es: seq<Event>)
    ensures PrintedOnto(es, "") == PrintedEvents(es)
  {
    if es != [] { PrintedOntoEmpty(es[1..]); }
  }

  lemma Regrouped(es: seq<Event>, more: seq<Event>)
    requires es != []
    ensures [es[0]] + (es[1..] + more) == es + more
  {
  }

  /** Printed events are read back in order, followed by whatever the text that follows holds. */
  lemma {:induction false} ReadsPrinted(es: seq<Event>, tail: string, end: End)
    requires AllPrintable(es)
    ensures ReadAll(PrintedOnto(es, tail), end) == Events(es + ReadAll(tail, end).events, ReadAll(tail, end).end)
    decreases |es|
  {
    var r := ReadAll(tail, end);
    if es == [] {
      assert es + r.events == r.events;
    } else {
      var rest := PrintedOnto(es[1..], tail);
      var read := ReadAll(rest, end);
      assert read == Events(es[1..] + r.events, r.end) by {
        ReadsPrinted(es[1..], tail, end);
      }
      assert ReadAll(PrintedEvent(es[0]) + rest, end) == Events([es[0]] + read.events, read.end) by {
        ReadsOne(es[0], rest, end);
      }
      assert PrintedOnto(es, tail) == PrintedEvent(es[0]) + rest;
      Regrouped(es, r.events);
    }
  }

  /** The event round trip holds exactly when every field is printable. */
  lemma EventRoundTrip(es: seq<Event>)
    ensures ReadAll(PrintedEvents(es), Eof) == Events(es, Eof) <==> AllPrintable(es)
  {
    ReadArePrintable(PrintedEvents(es), Eof);
    if AllPrintable(es) {
      ReadsPrinted(es, "", Eof);
      PrintedOntoEmpty(es);
      NothingInEmpty(Eof);
    }
  }

  // ----- An unfinished last event -----

  lemma UnfinishedField(line: string, end: End, seen: Event)
    requires OneLine(line) && Trimmed(line) && line != ""
    ensures var fields := Absorb(seen, line);
      FirstEvent(line, end, seen)
      == Found(if end.Broken? then Stopped(end) else if Full(fields) then Got(fields) else Stopped(Eof), "")
  {
    LineLengthWhole(line);
    assert line[..|line|] == line && line[|line|..] == "";
    assert !Complete(line);
    assert TrimLeft(line) == line && TrimRight(line) == line;
  }

  /** The first half of an event, and an event whose last line has no newline. */
  function EventLine(e: Event): string {
    "event: " + e.eventType
  }

  function UnfinishedEvent(e: Event): string {
    "event: " + e.eventType + "\n" + "data: " + e.data
  }

  lemma UnfinishedGives(e: Event, end: End)
    requires PrintableEvent(e)
    ensures FirstEvent(UnfinishedEvent(e), end, Event("", ""))
      == Found(if end.Broken? then Stopped(end) else Got(e), "")
    ensures FirstEvent(EventLine(e), end, Event("", "")) == Found(Stopped(end), "")
  {
    var first, second := "event: " + e.eventType, "data: " + e.data;
    Labelled("event: ", e.eventType);
    Labelled("data: ", e.data);
    assert UnfinishedEvent(e) == first + "\n" + second;
    OverLine(first, second, end, Event("", ""));
    assert Absorb(Event("", ""), first) == Event(e.eventType, "");
    assert second[0] != 'e';
    assert Absorb(Event(e.eventType, ""), second) == e;
    UnfinishedField(second, end, Event(e.eventType, ""));
    UnfinishedField(first, end, Event("", ""));
  }

  lemma ReadsUnfinished(e: Event, end: End)
    requires PrintableEvent(e)
    ensures ReadAll(UnfinishedEvent(e), end) == Events(if end.Broken? then [] else [e], end)
    ensures ReadAll(EventLine(e), end) == Events([], end)
  {
    UnfinishedGives(e, end);
    NothingInEmpty(end);
    if end.Eof? {
      assert ReadAll("", end) == Events([], Eof);
      assert [e] + [] == [e];
    }
  }

  /**
   Behind printed events: at a clean end a last event is read without its newlines, and not without
   its data; broken off, it is dropped.
   */
  lemma LastEventUnfinished(es: seq<Event>, e: Event, end: End)
    requires AllPrintable(es) && PrintableEvent(e)
    ensures ReadAll(PrintedOnto(es, UnfinishedEvent(e)), end) == Events(if end.Broken? then es else es + [e], end)
    ensures ReadAll(PrintedOnto(es, EventLine(e)), end) == Events(es, end)
  {
    ReadsUnfinished(e, end);
    ReadsPrinted(es, UnfinishedEvent(e), end);
    ReadsPrinted(es, EventLine(e), end);
    assert es + [] == es;
  }
}

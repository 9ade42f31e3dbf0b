/**
 internal/provider/anthropic/translate.go and anthropicStream.Next: Anthropic messages and
 stream events become OpenAI responses and chunks. JSON decoding is a parameter that may
 fail; the creation time is left out of the results.
 */
module AnthropicStream {
  import opened Common
  import opened Sse
  import opened SseEvents

  datatype Block = Block(blockType: string, text: string)

  datatype Message = Message(id: string, content: seq<Block>, model: string, stopReason: string, inputTokens: int,
                             outputTokens: int)

  /** An OpenAI response: its one choice and its usage. */
  datatype Response = Response(id: string, model: string, role: string, content: string, finishReason: Option<string>,
                               promptTokens: int, completionTokens: int, totalTokens: int)

  /** A stream chunk: the delta of its one choice. */
  datatype StreamChunk = StreamChunk(id: string, model: string, role: string, content: string,
                                     finishReason: Option<string>)

  datatype Start = Start(id: string, model: string)

  datatype Delta = Delta(deltaType: string, text: string)

  /** encoding/json on the four payloads; None is a decoding error. */
  datatype Decoder = Decoder(message: string -> Option<Message>, start: string -> Option<Start>,
                             delta: string -> Option<Delta>, stopReason: string -> Option<string>)

  function MapStopReason(reason: string): (r: Option<string>)
    ensures r.None? <==> reason == ""
    ensures reason == "end_turn" || reason == "stop_sequence" <==> r == Some("stop") && reason != "stop"
    ensures reason == "max_tokens" <==> r == Some("length") && reason != "length"
    ensures r.Some? && r.value !in {"stop", "length"} ==> r.value == reason
  {
    match reason
    case "end_turn" => Some("stop")
    case "max_tokens" => Some("length")
    case "stop_sequence" => Some("stop")
    case _ => if reason == "" then None else Some(reason)
  }

  // ----- Whole messages -----

  function Concat(texts: seq<string>): string {
    if texts == [] then "" else texts[0] + Concat(texts[1..])
  }

  function TextBlocks(blocks: seq<Block>): seq<string> {
    if blocks == [] then []
    else (if blocks[0].blockType == "text" then [blocks[0].text] else []) + TextBlocks(blocks[1..])
  }

  lemma {:induction false} TextBlocksAppend(a: seq<Block>, b: seq<Block>)
    ensures TextBlocks(a + b) == TextBlocks(a) + TextBlocks(b)
    decreases |a|
  {
    if a == [] {
      assert a + b == b;
    } else {
      assert (a + b)[1..] == a[1..] + b;
      TextBlocksAppend(a[1..], b);
    }
  }

  /** A block anywhere in a message adds its text, in its place, exactly when it is of type text. */
  lemma BlockInPlace(before: seq<Block>, block: Block, behind: seq<Block>)
    ensures Concat(TextBlocks(before + [block] + behind)) == Concat(TextBlocks(before))
      + (if block.blockType == "text" then block.text else "") + Concat(TextBlocks(behind))
  {
    var mid := TextBlocks([block]);
    assert [block][1..] == [];
    TextBlocksAppend(before + [block], behind);
    TextBlocksAppend(before, [block]);
    ConcatAppend(TextBlocks(before) + mid, TextBlocks(behind));
    ConcatAppend(TextBlocks(before), mid);
    if block.blockType == "text" {
      assert mid == [block.text] && mid[1..] == [];
      assert Concat(mid) == block.text + "";
    }
  }

  lemma OneMoreBlock(blocks: seq<Block>)
    requires blocks != []
    ensures Concat(TextBlocks(blocks)) ==
      (if blocks[0].blockType == "text" then blocks[0].text else "") + Concat(TextBlocks(blocks[1..]))
  {
    var rest := TextBlocks(blocks[1..]);
    assert ([blocks[0].text] + rest)[1..] == rest;
    assert [] + rest == rest;
    assert "" + Concat(rest) == Concat(rest);
  }

  method TranslateResponse(dec: Decoder, body: string) returns (r: Option<Response>)
    ensures r.None? <==> dec.message(body).None?
    ensures r.Some? ==> r.value == Whole(dec.message(body).value)
    ensures r.Some? ==> var m := dec.message(body).value;
      && r.value.id == m.id && r.value.model == m.model && r.value.role == "assistant"
      && r.value.promptTokens == m.inputTokens && r.value.completionTokens == m.outputTokens
      && r.value.totalTokens == m.inputTokens + m.outputTokens
  {
    var decoded := dec.message(body);
    if decoded.None? {
      return None;
    }
    var m := decoded.value;
    var content := "";
    for i := 0 to |m.content|
      invariant content + Concat(TextBlocks(m.content[i..])) == Concat(TextBlocks(m.content))
    {
      OneMoreBlock(m.content[i..]);
      assert m.content[i..][1..] == m.content[i + 1..];
      if m.content[i].blockType == "text" {
        Appended(content, m.content[i].text, Concat(TextBlocks(m.content[i + 1..])));
        content := content + m.content[i].text;
      }
    }
    assert Concat(TextBlocks(m.content[|m.content|..])) == "";
    var finishReason := MapStopReason(m.stopReason);
    r := Some(Response(m.id, m.model, "assistant", content, finishReason,
                       m.inputTokens, m.outputTokens, m.inputTokens + m.outputTokens));
  }

  ghost function Whole(m: Message): Response {
    Response(m.id, m.model, "assistant", Concat(TextBlocks(m.content)), MapStopReason(m.stopReason),
             m.inputTokens, m.outputTokens, m.inputTokens + m.outputTokens)
  }

  // ----- Stream events -----

  /** What one event gives: a chunk or nothing, the end of the stream, or a decoding error. */
  datatype Outcome = Emit(chunk: StreamChunk) | Skip | Done | Malformed

  ghost function OutcomeOf(dec: Decoder, e: Event, st: Start): Outcome {
    match e.eventType
    case "message_start" =>
      (match dec.start(e.data)
       case Some(s) => Emit(StreamChunk(s.id, s.model, "assistant", "", None))
       case None => Malformed)
    case "content_block_delta" =>
      (match dec.delta(e.data)
       case Some(d) =>
         if d.deltaType == "text_delta" then Emit(StreamChunk(st.id, st.model, "", d.text, None)) else Skip
       case None => Malformed)
    case "message_delta" =>
      (match dec.stopReason(e.data)
       case Some(reason) => Emit(StreamChunk(st.id, st.model, "", "", MapStopReason(reason)))
       case None => Malformed)
    case "message_stop" => Done
    case _ => Skip
  }

  ghost function StateAfter(dec: Decoder, e: Event, st: Start): Start {
    if e.eventType == "message_start" && dec.start(e.data).Some? then dec.start(e.data).value else st
  }

  /** streamState: the id and model of the message under way. */
  class StreamState {
    var id: string
    var model: string

    constructor ()
      ensures id == "" && model == ""
    {
      id, model := "", "";
    }

    ghost function View(): Start
      reads this
    {
      Start(id, model)
    }

    method HandleMessageStart(dec: Decoder, data: string) returns (r: Outcome)
      modifies this
      ensures r == OutcomeOf(dec, Event("message_start", data), old(View()))
      ensures View() == StateAfter(dec, Event("message_start", data), old(View()))
    {
      var ev := dec.start(data);
      if ev.None? {
        return Malformed;
      }
      id := ev.value.id;
      model := ev.value.model;
      r := Emit(StreamChunk(id, model, "assistant", "", None));
    }

    method HandleContentBlockDelta(dec: Decoder, data: string) returns (r: Outcome)
      ensures r == OutcomeOf(dec, Event("content_block_delta", data), View())
    {
      var ev := dec.delta(data);
      if ev.None? {
        return Malformed;
      }
      if ev.value.deltaType != "text_delta" {
        return Skip;
      }
      r := Emit(StreamChunk(id, model, "", ev.value.text, None));
    }

    method HandleMessageDelta(dec: Decoder, data: string) returns (r: Outcome)
      ensures r == OutcomeOf(dec, Event("message_delta", data), View())
    {
      var ev := dec.stopReason(data);
      if ev.None? {
        return Malformed;
      }
      r := Emit(StreamChunk(id, model, "", "", MapStopReason(ev.value)));
    }

    method TranslateStreamEvent(dec: Decoder, e: Event) returns (r: Outcome)
      modifies this
      ensures r == OutcomeOf(dec, e, old(View())) && View() == StateAfter(dec, e, old(View()))
    {
      if e.eventType == "message_start" {
        r := HandleMessageStart(dec, e.data);
      } else if e.eventType == "content_block_delta" {
        r := HandleContentBlockDelta(dec, e.data);
      } else if e.eventType == "message_delta" {
        r := HandleMessageDelta(dec, e.data);
      } else if e.eventType == "message_stop" {
        r := Done;
      } else {
        r := Skip;
      }
    }
  }

  // ----- anthropicStream.Next -----

  datatype Finish = Closed(end: End) | BadEvent

  /** The chunks a run of events gives, and how the translated stream ends. */
  datatype Run = Run(chunks: seq<StreamChunk>, finish: Finish)

  ghost function Translated(dec: Decoder, es: seq<Event>, end: End, st: Start): Run
    decreases |es|
  {
    if es == [] then Run([], Closed(end))
    else
      match OutcomeOf(dec, es[0], st)
      case Emit(c) =>
        var r := Translated(dec, es[1..], end, StateAfter(dec, es[0], st));
        Run([c] + r.chunks, r.finish)
      case Skip => Translated(dec, es[1..], end, st)
      case Done => Run([], Closed(Eof))
      case Malformed => Run([], BadEvent)
  }

  ghost function TranslatedText(dec: Decoder, s: string, end: End, st: Start): Run {
    Translated(dec, ReadAll(s, end).events, ReadAll(s, end).end, st)
  }

  /** The outcome of one event, then the translation of the text behind it. */
  ghost function FirstThen(dec: Decoder, e: Event, st: Start, rest: string, end: End): Run {
    match OutcomeOf(dec, e, st)
    case Emit(c) => var r := TranslatedText(dec, rest, end, StateAfter(dec, e, st)); Run([c] + r.chunks, r.finish)
    case Skip => TranslatedText(dec, rest, end, st)
    case Done => Run([], Closed(Eof))
    case Malformed => Run([], BadEvent)
  }

  lemma TranslatedHead(dec: Decoder, e: Event, es: seq<Event>, end: End, st: Start)
    ensures Translated(dec, [e] + es, end, st) ==
      match OutcomeOf(dec, e, st)
      case Emit(c) => var r := Translated(dec, es, end, StateAfter(dec, e, st)); Run([c] + r.chunks, r.finish)
      case Skip => Translated(dec, es, end, st)
      case Done => Run([], Closed(Eof))
      case Malformed => Run([], BadEvent)
  {
    assert ([e] + es)[1..] == es;
  }

  lemma TextStep(dec: Decoder, s: string, end: End, st: Start)
    ensures var f := FirstEvent(s, end, Event("", ""));
      match f.result
      case Stopped(e) => TranslatedText(dec, s, end, st) == Run([], Closed(e))
      case Got(e) => s != "" && TranslatedText(dec, s, end, st) == FirstThen(dec, e, st, f.rest, end)
  {
    NothingInEmpty(end);
    var f := FirstEvent(s, end, Event("", ""));
    if f.result.Got? {
      var rest := ReadAll(f.rest, end);
      assert ReadAll(s, end) == Events([f.result.event] + rest.events, rest.end);
      TranslatedHead(dec, f.result.event, rest.events, rest.end, st);
    }
  }

  datatype NextResult = Next(chunk: StreamChunk) | Finished(finish: Finish)

  class Stream {
    const dec: Decoder
    const reader: Reader
    const state: StreamState

    constructor (dec: Decoder, reader: Reader)
      ensures this.dec == dec && this.reader == reader && fresh(state) && state.View() == Start("", "")
    {
      this.dec, this.reader := dec, reader;
      state := new StreamState();
    }

    ghost function Pending(): Run
      reads reader, state
    {
      TranslatedText(dec, reader.rest, reader.end, state.View())
    }

    method Next() returns (r: NextResult)
      modifies reader, state
      ensures match r
        case Next(c) =>
          old(Pending()) == Run([c] + Pending().chunks, Pending().finish) && |reader.rest| < |old(reader.rest)|
        case Finished(f) => old(Pending()) == Run([], f)
    {
      while true
        invariant Pending() == old(Pending()) && |reader.rest| <= |old(reader.rest)|
        decreases |reader.rest|
      {
        TextStep(dec, reader.rest, reader.end, state.View());
        var event := ReadEvent(reader);
        if event.Stopped? {
          return Finished(Closed(event.end));
        }
        var outcome := state.TranslateStreamEvent(dec, event.event);
        match outcome {
          case Malformed => return Finished(BadEvent);
          case Done => return Finished(Closed(Eof));
          case Skip => {}
          case Emit(chunk) => return NextResult.Next(chunk);
        }
      }
    }

    /** Calling Next until it reports an end delivers the whole translation of the upstream text. */
    method Drain() returns (chunks: seq<StreamChunk>, finish: Finish)
      modifies reader, state
      ensures Run(chunks, finish) == old(Pending())
    {
      chunks := [];
      while true
        invariant Run(chunks + Pending().chunks, Pending().finish) == old(Pending())
        decreases |reader.rest|
      {
        var r := Next();
        if r.Finished? {
          assert chunks + [] == chunks;
          return chunks, r.finish;
        }
        assert chunks + ([r.chunk] + Pending().chunks) == (chunks + [r.chunk]) + Pending().chunks;
        chunks := chunks + [r.chunk];
      }
    }
  }

  // ----- Streaming agrees with translating the whole message -----

  /** An event that contributes nothing: an unknown type, or a delta that is not text. */
  ghost predicate Noise(dec: Decoder, e: Event) {
    || e.eventType !in {"message_start", "content_block_delta", "message_delta", "message_stop"}
    || (e.eventType == "content_block_delta"
        && dec.delta(e.data).Some? && dec.delta(e.data).value.deltaType != "text_delta")
  }

  ghost function Kept(dec: Decoder, es: seq<Event>): seq<Event> {
    if es == [] then [] else (if Noise(dec, es[0]) then [] else [es[0]]) + Kept(dec, es[1..])
  }

  ghost predicate IsTextDelta(dec: Decoder, e: Event, text: string) {
    e.eventType == "content_block_delta" && dec.delta(e.data) == Some(Delta("text_delta", text))
  }

  ghost predicate AreTextDeltas(dec: Decoder, es: seq<Event>, texts: seq<string>) {
    |texts| <= |es| && forall i :: 0 <= i < |texts| ==> IsTextDelta(dec, es[i], texts[i])
  }

  function Flatten(groups: seq<seq<string>>): seq<string> {
    if groups == [] then [] else groups[0] + Flatten(groups[1..])
  }

  /** Each text is cut into the pieces of its group. */
  predicate Split(texts: seq<string>, groups: seq<seq<string>>) {
    |texts| == |groups| && forall i :: 0 <= i < |groups| ==> Concat(groups[i]) == texts[i]
  }

  /**
   The events stream message m: leaving noise aside, its start, its text blocks cut into deltas
   as groups says, its stop reason, and the stop event. Anything may follow.
   */
  ghost predicate Streams(dec: Decoder, es: seq<Event>, m: Message, groups: seq<seq<string>>) {
    var kept, pieces := Kept(dec, es), Flatten(groups);
    var n := |pieces|;
    && Split(TextBlocks(m.content), groups)
    && |kept| >= n + 3
    && kept[0].eventType == "message_start" && dec.start(kept[0].data) == Some(Start(m.id, m.model))
    && AreTextDeltas(dec, kept[1..], pieces)
    && kept[n + 1].eventType == "message_delta" && dec.stopReason(kept[n + 1].data) == Some(m.stopReason)
    && kept[n + 2].eventType == "message_stop"
  }

  function DeltaChunks(st: Start, texts: seq<string>): seq<StreamChunk> {
    if texts == [] then [] else [StreamChunk(st.id, st.model, "", texts[0], None)] + DeltaChunks(st, texts[1..])
  }

  function Contents(chunks: seq<StreamChunk>): seq<string> {
    if chunks == [] then [] else [chunks[0].content] + Contents(chunks[1..])
  }

  lemma {:induction false} NoiseIsUnheard(dec: Decoder, es: seq<Event>, end: End, st: Start)
    ensures Translated(dec, es, end, st) == Translated(dec, Kept(dec, es), end, st)
    decreases |es|
  {
    if es != [] {
      var kept := Kept(dec, es[1..]);
      if Noise(dec, es[0]) {
        assert Kept(dec, es) == kept;
      } else {
        assert Kept(dec, es) == [es[0]] + kept && Kept(dec, es)[1..] == kept;
      }
      NoiseIsUnheard(dec, es[1..], end, StateAfter(dec, es[0], st));
    }
  }

  lemma FirstFront(first: StreamChunk, mid: seq<StreamChunk>, last: seq<StreamChunk>)
    ensures [first] + (mid + last) == [first] + mid + last
  {
  }

  lemma {:induction false} DeltasInTurn(dec: Decoder, es: seq<Event>, texts: seq<string>, end: End, st: Start)
    requires AreTextDeltas(dec, es, texts)
    ensures Translated(dec, es, end, st) == Run(DeltaChunks(st, texts) + Translated(dec, es[|texts|..], end, st).chunks,
                                                Translated(dec, es[|texts|..], end, st).finish)
    decreases |texts|
  {
    if texts == [] {
      assert es[0..] == es;
      var r := Translated(dec, es, end, st);
      assert [] + r.chunks == r.chunks;
    } else {
      assert IsTextDelta(dec, es[0], texts[0]);
      var first, r := StreamChunk(st.id, st.model, "", texts[0], None), Translated(dec, es[|texts|..], end, st);
      DeltasInTurn(dec, es[1..], texts[1..], end, st);
      assert es[1..][|texts[1..]|..] == es[|texts|..];
      FirstFront(first, DeltaChunks(st, texts[1..]), r.chunks);
    }
  }

  /** The last two kept events: the finish chunk, then the end. */
  lemma Closing(dec: Decoder, es: seq<Event>, reason: string, end: End, st: Start)
    requires |es| >= 2 && es[0].eventType == "message_delta" && dec.stopReason(es[0].data) == Some(reason)
    requires es[1].eventType == "message_stop"
    ensures Translated(dec, es, end, st)
      == Run([StreamChunk(st.id, st.model, "", "", MapStopReason(reason))], Closed(Eof))
  {
    assert es[1..][0] == es[1];
    assert Translated(dec, es[1..], end, st) == Run([], Closed(Eof));
  }

  lemma {:induction false} ConcatAppend(a: seq<string>, b: seq<string>)
    ensures Concat(a + b) == Concat(a) + Concat(b)
  {
    if a == [] {
      assert a + b == b;
    } else {
      assert (a + b)[1..] == a[1..] + b;
      ConcatAppend(a[1..], b);
    }
  }

  lemma {:induction false} SplitKeepsText(texts: seq<string>, groups: seq<seq<string>>)
    requires Split(texts, groups)
    ensures Concat(Flatten(groups)) == Concat(texts)
  {
    if groups != [] {
      SplitKeepsText(texts[1..], groups[1..]);
      ConcatAppend(groups[0], Flatten(groups[1..]));
    }
  }

  lemma {:induction false} ContentsOfDeltas(st: Start, texts: seq<string>, last: StreamChunk)
    ensures Contents(DeltaChunks(st, texts) + [last]) == texts + [last.content]
    ensures forall c :: c in DeltaChunks(st, texts) ==> c.id == st.id && c.model == st.model && c.finishReason.None?
  {
    var cs := DeltaChunks(st, texts) + [last];
    if texts != [] {
      ContentsOfDeltas(st, texts[1..], last);
      assert cs[1..] == DeltaChunks(st, texts[1..]) + [last];
      assert texts + [last.content] == [texts[0]] + (texts[1..] + [last.content]);
    } else {
      assert cs == [last] && cs[1..] == [];
    }
  }

  ghost function Expected(m: Message, pieces: seq<string>): seq<StreamChunk> {
    [StreamChunk(m.id, m.model, "assistant", "", None)] + (DeltaChunks(Start(m.id, m.model), pieces)
      + [StreamChunk(m.id, m.model, "", "", MapStopReason(m.stopReason))])
  }

  lemma StreamGives(dec: Decoder, es: seq<Event>, end: End, st: Start, m: Message, groups: seq<seq<string>>)
    requires Streams(dec, es, m, groups)
    ensures Translated(dec, es, end, st) == Run(Expected(m, Flatten(groups)), Closed(Eof))
  {
    NoiseIsUnheard(dec, es, end, st);
    var kept, pieces := Kept(dec, es), Flatten(groups);
    var named := Start(m.id, m.model);
    var tail := kept[1..][|pieces|..];
    assert tail[0] == kept[|pieces| + 1] && tail[1] == kept[|pieces| + 2];
    Closing(dec, tail, m.stopReason, end, named);
    DeltasInTurn(dec, kept[1..], pieces, end, named);
  }

  /** A client's view of a chunk sequence agrees with the response to the whole message. */
  ghost predicate Agrees(chunks: seq<StreamChunk>, r: Response) {
    && |chunks| >= 2 && chunks[0].role == r.role
    && (forall i :: 0 <= i < |chunks| ==> chunks[i].id == r.id && chunks[i].model == r.model)
    && Concat(Contents(chunks)) == r.content
    && chunks[|chunks| - 1].finishReason == r.finishReason
    && (forall i :: 0 <= i < |chunks| - 1 ==> chunks[i].finishReason.None?)
  }

  lemma ExpectedText(m: Message, groups: seq<seq<string>>)
    requires Split(TextBlocks(m.content), groups)
    ensures Concat(Contents(Expected(m, Flatten(groups)))) == Whole(m).content
  {
    var st, pieces := Start(m.id, m.model), Flatten(groups);
    var last := StreamChunk(m.id, m.model, "", "", MapStopReason(m.stopReason));
    var cs, rest := Expected(m, pieces), DeltaChunks(st, pieces) + [last];
    ContentsOfDeltas(st, pieces, last);
    assert cs[1..] == rest;
    assert Contents(cs) == [""] + (pieces + [""]);
    ConcatAppend([""], pieces + [""]);
    ConcatAppend(pieces, [""]);
    assert Concat([""]) == "";
    SplitKeepsText(TextBlocks(m.content), groups);
  }

  lemma ExpectedAgrees(m: Message, groups: seq<seq<string>>)
    requires Split(TextBlocks(m.content), groups)
    ensures Agrees(Expected(m, Flatten(groups)), Whole(m))
  {
    var st, pieces := Start(m.id, m.model), Flatten(groups);
    var last := StreamChunk(m.id, m.model, "", "", MapStopReason(m.stopReason));
    var cs, deltas := Expected(m, pieces), DeltaChunks(st, pieces);
    ExpectedText(m, groups);
    ContentsOfDeltas(st, pieces, last);
    assert cs[|cs| - 1] == last;
    forall i | 0 < i < |cs| - 1
      ensures cs[i].id == m.id && cs[i].model == m.model && cs[i].finishReason.None?
    {
      assert cs[i] == deltas[i - 1] && deltas[i - 1] in deltas;
    }
  }

  /**
   For every message and every stream of it, however its text blocks are cut into deltas and
   whatever noise comes between: the chunks carry the id, model, text and finish reason that
   translating the whole message gives, and the stream ends cleanly.
   */
  lemma StreamingAgrees(dec: Decoder, es: seq<Event>, end: End, st: Start, m: Message, groups: seq<seq<string>>)
    requires Streams(dec, es, m, groups)
    ensures Translated(dec, es, end, st).finish == Closed(Eof)
    ensures Agrees(Translated(dec, es, end, st).chunks, Whole(m))
  {
    StreamGives(dec, es, end, st, m, groups);
    ExpectedAgrees(m, groups);
  }

  lemma {:induction false} KeptAppend(dec: Decoder, es: seq<Event>, more: seq<Event>)
    ensures Kept(dec, es + more) == Kept(dec, es) + Kept(dec, more)
  {
    if es == [] {
      assert es + more == more;
    } else {
      assert (es + more)[1..] == es[1..] + more;
      KeptAppend(dec, es[1..], more);
    }
  }

  lemma StreamsThenMore(dec: Decoder, es: seq<Event>, more: seq<Event>, m: Message, groups: seq<seq<string>>)
    requires Streams(dec, es, m, groups)
    ensures Streams(dec, es + more, m, groups)
  {
    KeptAppend(dec, es, more);
    var kept, pieces := Kept(dec, es), Flatten(groups);
    var longer := kept + Kept(dec, more);
    forall i | 0 <= i < |pieces| ensures IsTextDelta(dec, longer[1..][i], pieces[i]) {
      assert longer[1..][i] == kept[1..][i];
    }
  }

  /** The same from the wire: the events as printed, with any text after them and any end. */
  lemma PrintedStreamAgrees(dec: Decoder, es: seq<Event>, tail: string, end: End, st: Start, m: Message,
                            groups: seq<seq<string>>)
    requires Streams(dec, es, m, groups) && AllPrintable(es)
    ensures TranslatedText(dec, PrintedOnto(es, tail), end, st).finish == Closed(Eof)
    ensures Agrees(TranslatedText(dec, PrintedOnto(es, tail), end, st).chunks, Whole(m))
  {
    ReadsPrinted(es, tail, end);
    var more := ReadAll(tail, end);
    StreamsThenMore(dec, es, more.events, m, groups);
    StreamingAgrees(dec, es + more.events, more.end, st, m, groups);
  }
}

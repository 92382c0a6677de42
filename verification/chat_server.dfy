/**
 * The chat endpoint of main.py: `ask_question` answers the last message of a
 * chat request with the retrieval tool, and `event_stream` sends the answer as
 * server-sent events, one chunk per line of the answer, then a stop chunk and
 * the `[DONE]` marker. The clock and the JSON encoding of a chunk are
 * parameters: the model knows the clock by the time it reads for the `i`-th
 * chunk and the encoder by the text it gives for a chunk.
 */
module ChatServer {
  import opened Strings
  import opened Py
  import opened RetrievalTool

  const ChunkId := "chatcmpl-123"
  const ChunkObject := "chat.completion.chunk"
  const DoneFrame := "data: [DONE]\n\n"
  const StopReason := "stop"
  /** The arguments `ask_question` passes to the tool. */
  const ChatTopK := 20
  const ChatReturnSources := 3

  /** `Message` and `ChatRequest` of models/body.py. */
  datatype Message = Message(role: string, content: string)
  datatype ChatRequest = ChatRequest(model: string, messages: seq<Message>, stream: bool)

  /** A chunk's delta: `{"content": ...}` or the empty `{}`. */
  datatype Delta = Content(text: string) | EmptyDelta

  /** The chunk dictionary, with its single choice flattened into the record. */
  datatype StreamChunk = StreamChunk(id: string, obj: string, created: int, model: string,
                                     delta: Delta, index: int, finishReason: Option<string>)

  /** What the stream yields: a `data:` frame carrying a chunk, or the `[DONE]` marker. */
  datatype Event = Data(chunk: StreamChunk) | Done

  /** The chunk for one line of the reply, sent with a space after it. */
  function TokenChunk(token: string, req: ChatRequest, created: int): StreamChunk
  {
    StreamChunk(ChunkId, ChunkObject, created, req.model, Content(token + " "), 0, None)
  }

  /** The final chunk: an empty delta and finish reason "stop". */
  function StopChunk(req: ChatRequest, created: int): StreamChunk
  {
    StreamChunk(ChunkId, ChunkObject, created, req.model, EmptyDelta, 0, Some(StopReason))
  }

  /**
   * The events of `event_stream(reply, req)`: a chunk per line of the reply
   * (line breaks kept), the stop chunk, then `[DONE]`. The `i`-th chunk is
   * stamped `clock(i)`.
   */
  function Events(reply: string, req: ChatRequest, clock: nat -> int): seq<Event>
  {
    var tokens := SplitLines(reply);
    seq(|tokens|, i requires 0 <= i < |tokens| => Data(TokenChunk(tokens[i], req, clock(i))))
    + [Data(StopChunk(req, clock(|tokens|))), Done]
  }

  /** The text yielded for an event: `f"data: {json.dumps(chunk)}\n\n"`, or the `[DONE]` frame. */
  function Wire(e: Event, encode: StreamChunk -> string): (r: string)
    ensures "data: " <= r
    ensures |r| >= 2 && r[|r| - 2..] == "\n\n"
  {
    match e
    case Data(c) => "data: " + encode(c) + "\n\n"
    case Done => DoneFrame
  }

  /** The text a client gets back from one event's delta: the content less the trailing space. */
  function Received(e: Event): string
  {
    if e.Data? && e.chunk.delta.Content? && |e.chunk.delta.text| > 0
    then e.chunk.delta.text[..|e.chunk.delta.text| - 1]
    else ""
  }

  /** The reply as a client reassembles it from a run of events. */
  function Reassemble(events: seq<Event>): string
    decreases |events|
  {
    if |events| == 0 then "" else Received(events[0]) + Reassemble(events[1..])
  }

  /**
   * The stream has one frame per line of the reply, plus two; an empty reply
   * gives only the stop chunk and `[DONE]`.
   */
  lemma EventCount(reply: string, req: ChatRequest, clock: nat -> int)
    ensures |Events(reply, req, clock)| == |SplitLines(reply)| + 2
    ensures reply == "" ==> Events(reply, req, clock) == [Data(StopChunk(req, clock(0))), Done]
  {
  }

  /**
   * Every chunk carries id "chatcmpl-123", object "chat.completion.chunk",
   * index 0, the request's model and its own clock reading; the token chunks
   * come first, in line order, each carrying its line plus a space and no
   * finish reason; then the one stop chunk; `[DONE]` comes last.
   */
  lemma EventShape(reply: string, req: ChatRequest, clock: nat -> int)
    ensures forall i :: 0 <= i < |Events(reply, req, clock)| - 1 ==>
      var c := Events(reply, req, clock)[i];
      && c.Data? && c.chunk.id == ChunkId && c.chunk.obj == ChunkObject
      && c.chunk.model == req.model && c.chunk.index == 0 && c.chunk.created == clock(i)
    ensures forall i :: 0 <= i < |SplitLines(reply)| ==>
      Events(reply, req, clock)[i] == Data(TokenChunk(SplitLines(reply)[i], req, clock(i)))
    ensures Events(reply, req, clock)[|SplitLines(reply)|] == Data(StopChunk(req, clock(|SplitLines(reply)|)))
    ensures Events(reply, req, clock)[|SplitLines(reply)| + 1] == Done
  {
    var ev, tokens := Events(reply, req, clock), SplitLines(reply);
    var n := |tokens|;
    var body := seq(n, i requires 0 <= i < n => Data(TokenChunk(tokens[i], req, clock(i))));
    assert ev == body + [Data(StopChunk(req, clock(n))), Done];
    forall i | 0 <= i < n
      ensures ev[i] == Data(TokenChunk(tokens[i], req, clock(i)))
    {
      assert ev[i] == body[i];
    }
    assert ev[n] == Data(StopChunk(req, clock(n))) && ev[n + 1] == Done;
  }

  /** The events that follow the token chunks give the client no text. */
  lemma {:induction false} ReassembleTokens(events: seq<Event>, tokens: seq<string>)
    requires |tokens| <= |events|
    requires forall i :: 0 <= i < |tokens| ==> events[i].Data? && events[i].chunk.delta == Content(tokens[i] + " ")
    requires forall i :: |tokens| <= i < |events| ==> Received(events[i]) == ""
    ensures Reassemble(events) == Concat(tokens)
    decreases |events|
  {
    if |events| > 0 {
      if |tokens| > 0 {
        var t := tokens[0] + " ";
        assert Received(events[0]) == t[..|t| - 1] == tokens[0];
        ReassembleTokens(events[1..], tokens[1..]);
      } else {
        assert Received(events[0]) == "";
        ReassembleTokens(events[1..], tokens);
      }
    }
  }

  /**
   * The stream is lossless: dropping the space after each delta and
   * concatenating the deltas gives back the reply, because
   * `splitlines(keepends=True)` keeps every line break.
   */
  lemma ReassembleRoundTrip(reply: string, req: ChatRequest, clock: nat -> int)
    ensures Reassemble(Events(reply, req, clock)) == reply
  {
    var tokens := SplitLines(reply);
    var ev := Events(reply, req, clock);
    assert forall i :: 0 <= i < |tokens| ==> ev[i] == Data(TokenChunk(tokens[i], req, clock(i)));
    assert Received(ev[|tokens|]) == "" && Received(ev[|tokens| + 1]) == "";
    ReassembleTokens(ev, tokens);
    SplitLinesConcat(reply);
  }

  /**
   * `event_stream(assistant_reply, chat_req)`: yields one frame per line of
   * the reply, then the stop frame and the `[DONE]` frame.
   */
  method EventStream(reply: string, req: ChatRequest, clock: nat -> int, encode: StreamChunk -> string)
    returns (frames: seq<string>)
    ensures |frames| == |Events(reply, req, clock)|
    ensures forall i :: 0 <= i < |frames| ==> frames[i] == Wire(Events(reply, req, clock)[i], encode)
  {
    var tokens := SplitLines(reply);
    ghost var ev := Events(reply, req, clock);
    frames := [];
    for i := 0 to |tokens|
      invariant |frames| == i
      invariant forall j :: 0 <= j < i ==> frames[j] == Wire(ev[j], encode)
    {
      var chunk := TokenChunk(tokens[i], req, clock(i));
      frames := frames + ["data: " + encode(chunk) + "\n\n"];
    }
    var finalChunk := StopChunk(req, clock(|tokens|));
    frames := frames + ["data: " + encode(finalChunk) + "\n\n"];
    frames := frames + [DoneFrame];
  }

  /** What `ask_question` produces: the event stream, or the error `messages[-1]` raises on an empty list. */
  datatype ChatResult = Streamed(frames: seq<string>) | NoMessages

  /**
   * `ask_question(chat_req)`: asks the tool about the content of the last
   * message with `top_k=20` and `return_sources=3`, and streams the answer.
   */
  method AskQuestion(tool: ContextualRetrievalTool, req: ChatRequest, clock: nat -> int, encode: StreamChunk -> string)
    returns (result: ChatResult)
    modifies tool`queries
    ensures |req.messages| == 0 ==> result == NoMessages && tool.queries == old(tool.queries)
    ensures |req.messages| > 0 ==>
      var question := req.messages[|req.messages| - 1].content;
      var answer := Answer(tool.queryEngine, tool.returnSourcesCap, question, ChatReturnSources);
      && result.Streamed?
      && |result.frames| == |Events(answer, req, clock)|
      && (forall i :: 0 <= i < |result.frames| ==> result.frames[i] == Wire(Events(answer, req, clock)[i], encode))
      && (tool.queryEngine.Some? ==> tool.queries == old(tool.queries) + [question])
      && (tool.queryEngine.None? ==> tool.queries == old(tool.queries))
  {
    if |req.messages| == 0 {
      return NoMessages;
    }
    var userMessage := req.messages[|req.messages| - 1].content;
    var response := tool.Run(userMessage, ChatTopK, ChatReturnSources);
    var frames := EventStream(response, req, clock, encode);
    result := Streamed(frames);
  }
}

/**
 * The earlier conversation endpoint (app/api/chat/oldroute.ts). The file is
 * not named `route.ts`, so the framework never serves it; it is modelled
 * for its different streaming contract: one `{content}` frame per chunk
 * carrying only that chunk's text, no terminal frame, and upstream errors
 * swallowed before an ordinary close.
 */
module OldChatRoute {
  import opened Wrappers
  import opened ChatTypes
  import opened Strings
  import opened Json
  import ChatRoute

  /** The completion request: the system template, then the messages exactly as received. */
  datatype OldRequest = OldRequest(template: string, history: seq<Message>)

  /** A stream always ends with an ordinary close, so only its frames are kept. */
  datatype OldResponse =
    | OldEventStream(contents: seq<string>)
    | OldJsonError(status: int, error: string)

  const UsageLimitMessage := "It seems we have hit our usage limit for now. Please wait a moment before trying again. Thank you for your patience!"

  /** `JSON.stringify(docMap)` for an array of strings. */
  function JsonStringArray(texts: seq<string>): string {
    "[" + Join(seq(|texts|, i requires 0 <= i < |texts| => Quote(texts[i])), ",") + "]"
  }

  /** `${lastMessage}` renders an absent last message as "undefined". */
  function Interpolate(q: Option<string>): string {
    if q.Some? then q.value else "undefined"
  }

  /** The template's content, `...${docContext}...${lastMessage}...`. */
  function Template(texts: seq<string>, query: Option<string>): string {
    "..." + JsonStringArray(texts) + "..." + Interpolate(query) + "..."
  }

  /** The template carries the serialised passages and the query, `undefined` when there is none. */
  lemma TemplateCarries(texts: seq<string>, query: Option<string>)
    ensures Contains(Template(texts, query), JsonStringArray(texts))
    ensures query.Some? ==> Contains(Template(texts, query), query.value)
    ensures query.None? ==> Contains(Template(texts, query), "undefined")
  {
    var context := JsonStringArray(texts);
    var q := Interpolate(query);
    assert OccursAt(context, context, 0);
    assert OccursAt(q, q, 0);
    ContainsPrepend("...", context, context);
    ContainsAppend("..." + context, "...", context);
    ContainsAppend("..." + context + "...", q, context);
    ContainsAppend("..." + context + "..." + q, "...", context);
    ContainsPrepend("..." + context + "...", q, q);
    ContainsAppend("..." + context + "..." + q, "...", q);
  }

  /** The frames of a prefix of the chunks: each carrying chunk's own text. */
  function ContentFrames(deltas: seq<Option<string>>): seq<string>
    decreases |deltas|
  {
    if deltas == [] then []
    else
      var last := deltas[|deltas| - 1];
      ContentFrames(deltas[..|deltas| - 1]) + (if Carries(last) then [DeltaText(last)] else [])
  }

  /**
   * The `pull` callback: enqueue one frame per chunk that carries text. An
   * upstream error ends the loop; it is logged and the stream is closed in
   * `finally` just as after a normal end, so it changes nothing here.
   */
  method Pull(up: Upstream) returns (contents: seq<string>)
    ensures contents == ContentFrames(up.deltas)
  {
    contents := [];
    var i := 0;
    while i < |up.deltas|
      invariant 0 <= i <= |up.deltas|
      invariant contents == ContentFrames(up.deltas[..i])
    {
      var chunk := up.deltas[i];
      assert up.deltas[..i + 1][..i] == up.deltas[..i];
      if chunk.Some? && chunk.value != "" {
        contents := contents + [chunk.value];
      }
      i := i + 1;
    }
    assert up.deltas[..i] == up.deltas;
  }

  /**
   * One frame per chunk carrying text, none of them empty, and their
   * concatenation is exactly the streamed answer.
   */
  lemma {:induction false} ContentFramesConcat(deltas: seq<Option<string>>)
    ensures |ContentFrames(deltas)| == CountCarrying(deltas)
    ensures forall k :: 0 <= k < |ContentFrames(deltas)| ==> ContentFrames(deltas)[k] != ""
    ensures Concat(ContentFrames(deltas)) == Streamed(deltas)
    decreases |deltas|
  {
    if deltas != [] {
      var before := deltas[..|deltas| - 1];
      var last := deltas[|deltas| - 1];
      ContentFramesConcat(before);
      var extra := if Carries(last) then [DeltaText(last)] else [];
      assert ContentFrames(deltas) == ContentFrames(before) + extra;
      ConcatAppend(ContentFrames(before), extra);
      assert Concat(extra) == DeltaText(last) by {
        if Carries(last) { assert Concat(extra) == DeltaText(last) + Concat([]); }
      }
    }
  }

  /** `"data: " + JSON.stringify({content}) + "\n\n"`. */
  function EncodeContent(text: string): string {
    "data: " + Stringify(ContentPayload(text)) + "\n\n"
  }

  /** The inner `catch`: 429 carries the usage-limit notice, anything else 500. */
  function PipelineError(e: ErrorInfo): (r: OldResponse)
    ensures r.OldJsonError?
    ensures r.status == 429 <==> e.status == Some(429)
    ensures r.status == 429 ==> r.error == UsageLimitMessage
    ensures r.status != 429 ==> r.status == 500 && r.error == ChatRoute.EmbeddingErrorMessage
  {
    if e.status == Some(429) then OldJsonError(429, UsageLimitMessage)
    else OldJsonError(500, ChatRoute.EmbeddingErrorMessage)
  }

  /** The outer `catch`: 429 "Rate limit exceeded…", anything else 500 "Internal Server Error". */
  function RequestError(e: ErrorInfo): (r: OldResponse)
    ensures r.OldJsonError?
    ensures r.status == 429 <==> e.status == Some(429)
    ensures r.status == 429 ==> r.error == ChatRoute.RateLimitMessage
    ensures r.status != 429 ==> r.status == 500 && r.error == ChatRoute.InternalErrorMessage
  {
    if e.status == Some(429) then OldJsonError(429, ChatRoute.RateLimitMessage)
    else OldJsonError(500, ChatRoute.InternalErrorMessage)
  }

  /**
   * What this `POST` answers: no fallback search and no emptiness check;
   * the vector hits, however many, go into the template.
   */
  function Respond(
    body: ChatRoute.Body,
    embed: Option<string> -> Result<ChatRoute.Embedding, ErrorInfo>,
    search: ChatRoute.Embedding -> Result<seq<ChatRoute.Passage>, ErrorInfo>,
    complete: OldRequest -> Result<Upstream, ErrorInfo>
  ): OldResponse
  {
    match body
    case Unreadable(e) => RequestError(e)
    case Parsed(messages) =>
      match embed(ChatRoute.Query(messages))
      case Failure(e) => PipelineError(e)
      case Success(vector) =>
        match search(vector)
        case Failure(e) => PipelineError(e)
        case Success(documents) =>
          var template := Template(ChatRoute.Texts(documents), ChatRoute.Query(messages));
          match complete(OldRequest(template, messages))
          case Failure(e) => PipelineError(e)
          case Success(up) => OldEventStream(ContentFrames(up.deltas))
  }

  /** The handler, step by step as the source runs it. */
  method Post(
    body: ChatRoute.Body,
    embed: Option<string> -> Result<ChatRoute.Embedding, ErrorInfo>,
    search: ChatRoute.Embedding -> Result<seq<ChatRoute.Passage>, ErrorInfo>,
    complete: OldRequest -> Result<Upstream, ErrorInfo>
  ) returns (resp: OldResponse)
    ensures resp == Respond(body, embed, search, complete)
  {
    if body.Unreadable? {
      return RequestError(body.error);
    }
    var messages := body.messages;
    var lastMessage := ChatRoute.Query(messages);
    var embedding := embed(lastMessage);
    if embedding.Failure? {
      return PipelineError(embedding.error);
    }
    var documents := search(embedding.value);
    if documents.Failure? {
      return PipelineError(documents.error);
    }
    var template := Template(ChatRoute.Texts(documents.value), lastMessage);
    var completion := complete(OldRequest(template, messages));
    if completion.Failure? {
      return PipelineError(completion.error);
    }
    var contents := Pull(completion.value);
    resp := OldEventStream(contents);
  }

  /**
   * A mid-stream error is invisible to the client: whether or not the
   * upstream fails after its chunks, the response is the same stream of
   * the frames sent so far, closed normally.
   */
  lemma ErrorsSwallowed(
    messages: seq<Message>,
    embed: Option<string> -> Result<ChatRoute.Embedding, ErrorInfo>,
    search: ChatRoute.Embedding -> Result<seq<ChatRoute.Passage>, ErrorInfo>,
    failing: OldRequest -> Result<Upstream, ErrorInfo>,
    clean: OldRequest -> Result<Upstream, ErrorInfo>
  )
    requires forall r :: failing(r).Success? <==> clean(r).Success?
    requires forall r :: failing(r).Success? ==>
      failing(r).value == Upstream(clean(r).value.deltas, true) && !clean(r).value.failsAtEnd
    ensures Respond(ChatRoute.Parsed(messages), embed, search, failing).OldEventStream?
        <==> Respond(ChatRoute.Parsed(messages), embed, search, clean).OldEventStream?
    ensures Respond(ChatRoute.Parsed(messages), embed, search, failing).OldEventStream? ==>
      Respond(ChatRoute.Parsed(messages), embed, search, failing)
        == Respond(ChatRoute.Parsed(messages), embed, search, clean)
  {
  }
}

/**
 * The chat page's request and stream-reading logic (app/page.tsx):
 * `handleSubmit` and `handlePrompt` append the user's message, send the
 * conversation, and — when a body can be read — append an empty assistant
 * placeholder whose content each accepted `data: ` line replaces.
 *
 * React state becomes the fields of `Home`; each `setMessages` updater is
 * applied in order. Fresh ids from `crypto.randomUUID()` and the server's
 * reply are parameters.
 */
module ChatPage {
  import opened Wrappers
  import opened ChatTypes
  import opened Strings
  import opened Json

  const GenericError := "An unexpected error occurred. Please try again later."
  const RateLimitFallback := "An unexpected error occurred"
  const DataPrefix := "data: "

  /**
   * A response body as the reader delivers it: the decoded text of each
   * `reader.read()` chunk, and whether a later read rejects instead of
   * reporting the end.
   */
  datatype Body = Body(chunks: seq<string>, failsAfter: bool)

  datatype HttpResponse = HttpResponse(status: int, body: Option<Body>)

  /** The outcome of `fetch`: it rejects, or a response arrives. */
  datatype Reply = NetworkFailure | Received(response: HttpResponse)

  /** The state the page shows: the conversation and the error banner. */
  datatype View = View(messages: seq<Message>, error: Option<string>)

  /** `response.ok`. */
  predicate Ok(status: int) {
    200 <= status <= 299
  }

  /**
   * `prev.map(msg => msg.id === id ? {...msg, content: text} : msg)`: the
   * messages carrying `id` get the new content, every other message, the
   * order and the length stay as they were.
   */
  function ReplaceContent(ms: seq<Message>, id: string, text: string): (r: seq<Message>)
    ensures |r| == |ms|
    ensures forall k :: 0 <= k < |ms| ==> r[k].id == ms[k].id && r[k].role == ms[k].role
    ensures forall k :: 0 <= k < |ms| && ms[k].id != id ==> r[k] == ms[k]
    ensures forall k :: 0 <= k < |ms| && ms[k].id == id ==> r[k].content == text
    decreases |ms|
  {
    if ms == [] then []
    else [if ms[0].id == id then ms[0].(content := text) else ms[0]] + ReplaceContent(ms[1..], id, text)
  }

  /**
   * `data.text` when it is truthy: the text of a parsed line. Reading it
   * from `null` throws and is caught like a syntax error, so it yields
   * nothing too.
   */
  function TextOf(data: Value): (r: Option<string>)
    ensures r.Some? <==> Property(data, "text").Some? && Property(data, "text").value.Str? && Truthy(Property(data, "text").value)
    ensures r.Some? ==> Property(data, "text") == Some(Str(r.value)) && r.value != ""
  {
    match Property(data, "text")
    case Some(Str(t)) => if t != "" then Some(t) else None
    case _ => None
  }

  /**
   * The text a line contributes: only a line starting with `data: ` whose
   * remainder parses, and only when its `text` is a non-empty string.
   */
  function Accepted(line: string): Option<string> {
    if StartsWith(line, DataPrefix) then
      match Parse(line[|DataPrefix|..])
      case Some(data) => TextOf(data)
      case None => None
    else None
  }

  /** The text of the last accepted line, if any. */
  function LastAccepted(lines: seq<string>): Option<string>
    decreases |lines|
  {
    if lines == [] then None
    else
      var later := LastAccepted(lines[1..]);
      if later.Some? then later else Accepted(lines[0])
  }

  /** The inner `for` loop over the lines of one chunk. */
  function ApplyLines(ms: seq<Message>, id: string, lines: seq<string>): seq<Message>
    decreases |lines|
  {
    if lines == [] then ms
    else
      var prev := ApplyLines(ms, id, lines[..|lines| - 1]);
      match Accepted(lines[|lines| - 1])
      case None => prev
      case Some(t) => ReplaceContent(prev, id, t)
  }

  /** One more line applied: the inner loop's step. */
  lemma ApplyLinesStep(ms: seq<Message>, id: string, lines: seq<string>, j: nat)
    requires j < |lines|
    ensures ApplyLines(ms, id, lines[..j + 1]) == match Accepted(lines[j])
      case None => ApplyLines(ms, id, lines[..j])
      case Some(t) => ReplaceContent(ApplyLines(ms, id, lines[..j]), id, t)
  {
    assert lines[..j + 1][..j] == lines[..j];
  }

  /** `Accepted`, spelled out as the loop body tests it. */
  lemma AcceptedTests(line: string)
    ensures StartsWith(line, DataPrefix) && Parse(line[|DataPrefix|..]).Some?
      && Property(Parse(line[|DataPrefix|..]).value, "text").Some?
      && Property(Parse(line[|DataPrefix|..]).value, "text").value.Str?
      && Property(Parse(line[|DataPrefix|..]).value, "text").value.s != ""
      ==> Accepted(line) == Some(Property(Parse(line[|DataPrefix|..]).value, "text").value.s)
    ensures !(StartsWith(line, DataPrefix) && Parse(line[|DataPrefix|..]).Some?
      && Property(Parse(line[|DataPrefix|..]).value, "text").Some?
      && Property(Parse(line[|DataPrefix|..]).value, "text").value.Str?
      && Property(Parse(line[|DataPrefix|..]).value, "text").value.s != "")
      ==> Accepted(line) == None
  {
  }

  /** The lines of each chunk, split separately: nothing carries over between chunks. */
  function ReadLines(chunks: seq<string>): seq<string>
    decreases |chunks|
  {
    if chunks == [] then [] else ReadLines(chunks[..|chunks| - 1]) + Split(chunks[|chunks| - 1])
  }

  /** The outer `while` loop over the chunks. */
  function ApplyReads(ms: seq<Message>, id: string, chunks: seq<string>): seq<Message>
    decreases |chunks|
  {
    if chunks == [] then ms
    else ApplyLines(ApplyReads(ms, id, chunks[..|chunks| - 1]), id, Split(chunks[|chunks| - 1]))
  }

  /**
   * `(await response.json()).error` for the 429 branch: None when that
   * throws (no body, an unreadable body, text that is not JSON, or the
   * JSON `null`), Some(None) when the value has no `error` string, and
   * Some(Some(e)) when `error` is the string `e`.
   */
  function ErrorField(body: Option<Body>): (r: Option<Option<string>>)
    ensures r.None? <==> (body.None? || body.value.failsAfter
      || Parse(Concat(body.value.chunks)).None? || Parse(Concat(body.value.chunks)) == Some(Null))
    ensures r.Some? && r.value.Some? ==>
      (body.Some? && Parse(Concat(body.value.chunks)).Some?
       && Property(Parse(Concat(body.value.chunks)).value, "error") == Some(Str(r.value.value)))
    ensures r == Some(None) ==>
      (body.Some? && Parse(Concat(body.value.chunks)).Some?
       && !(Property(Parse(Concat(body.value.chunks)).value, "error").Some?
            && Property(Parse(Concat(body.value.chunks)).value, "error").value.Str?))
  {
    match body
    case None => None
    case Some(b) =>
      if b.failsAfter then None
      else match Parse(Concat(b.chunks))
        case None => None
        case Some(Null) => None
        case Some(data) =>
          match Property(data, "error")
          case Some(Str(e)) => Some(Some(e))
          case _ => Some(None)
  }

  /** `errorData.error || "An unexpected error occurred"`. */
  function RateLimitText(field: Option<string>): string {
    if field.Some? && field.value != "" then field.value else RateLimitFallback
  }

  /** A readable body: append the placeholder, then apply every chunk. */
  function Streaming(ms: seq<Message>, aiId: string, body: Body): View {
    var shown := ApplyReads(ms + [Message(aiId, Assistant, "")], aiId, body.chunks);
    View(shown, if body.failsAfter then Some(GenericError) else None)
  }

  /** What `handleSubmit` leaves on the page. */
  function SubmitOutcome(ms: seq<Message>, input: string, userId: string, aiId: string, reply: Reply): View {
    var withUser := ms + [Message(userId, User, input)];
    match reply
    case NetworkFailure => View(withUser, Some(GenericError))
    case Received(resp) =>
      if !Ok(resp.status) then
        if resp.status == 429 then
          match ErrorField(resp.body)
          case None => View(withUser, Some(GenericError))
          case Some(field) => View(withUser, Some(RateLimitText(field)))
        else View(withUser, Some(GenericError))
      else if resp.body.None? then View(withUser, Some(GenericError))
      else Streaming(withUser, aiId, resp.body.value)
  }

  /** What `handlePrompt` leaves on the page: it never looks at the status. */
  function PromptOutcome(ms: seq<Message>, prompt: string, userId: string, aiId: string, reply: Reply): View {
    var withUser := ms + [Message(userId, User, prompt)];
    match reply
    case NetworkFailure => View(withUser, Some(GenericError))
    case Received(resp) =>
      if resp.body.None? then View(withUser, Some(GenericError))
      else Streaming(withUser, aiId, resp.body.value)
  }

  class Home {
    var messages: seq<Message>
    var errorMessage: Option<string>

    constructor ()
      ensures messages == [] && errorMessage == None
    {
      messages := [];
      errorMessage := None;
    }

    /** The `while (true)` read loop; each read's lines go through `ReadChunk`. */
    method ReadBody(aiId: string, chunks: seq<string>)
      modifies this
      ensures messages == ApplyReads(old(messages), aiId, chunks)
      ensures errorMessage == old(errorMessage)
    {
      var i := 0;
      while i < |chunks|
        invariant 0 <= i <= |chunks|
        invariant messages == ApplyReads(old(messages), aiId, chunks[..i])
        invariant errorMessage == old(errorMessage)
      {
        ReadChunk(aiId, chunks[i]);
        assert chunks[..i + 1][..i] == chunks[..i];
        i := i + 1;
      }
      assert chunks[..i] == chunks;
    }

    /** The inner `for` over the lines of one decoded read. */
    method ReadChunk(aiId: string, chunk: string)
      modifies this
      ensures messages == ApplyLines(old(messages), aiId, Split(chunk))
      ensures errorMessage == old(errorMessage)
    {
      var lines := Split(chunk);
      var j := 0;
      while j < |lines|
        invariant 0 <= j <= |lines|
        invariant messages == ApplyLines(old(messages), aiId, lines[..j])
        invariant errorMessage == old(errorMessage)
      {
        ApplyLinesStep(old(messages), aiId, lines, j);
        var line := lines[j];
        AcceptedTests(line);
        if StartsWith(line, DataPrefix) {
          var data := Parse(line[|DataPrefix|..]);
          if data.Some? {
            var text := Property(data.value, "text");
            if text.Some? && text.value.Str? && text.value.s != "" {
              messages := ReplaceContent(messages, aiId, text.value.s);
            }
          }
        }
        j := j + 1;
      }
      assert lines[..j] == lines;
    }

    method HandleSubmit(input: string, userId: string, aiId: string, reply: Reply) returns (sent: seq<Message>)
      modifies this
      ensures sent == old(messages) + [Message(userId, User, input)]
      ensures View(messages, errorMessage) == SubmitOutcome(old(messages), input, userId, aiId, reply)
    {
      errorMessage := None;
      var userMessage := Message(userId, User, input);
      sent := messages + [userMessage];
      messages := messages + [userMessage];
      if reply.NetworkFailure? {
        errorMessage := Some(GenericError);
        return;
      }
      var response := reply.response;
      if !Ok(response.status) {
        if response.status == 429 {
          var errorData := ErrorField(response.body);
          if errorData.None? {
            errorMessage := Some(GenericError);
          } else {
            errorMessage := Some(RateLimitText(errorData.value));
          }
          return;
        }
        errorMessage := Some(GenericError);
        return;
      }
      if response.body.None? {
        errorMessage := Some(GenericError);
        return;
      }
      var aiMessage := Message(aiId, Assistant, "");
      messages := messages + [aiMessage];
      ReadBody(aiId, response.body.value.chunks);
      if response.body.value.failsAfter {
        errorMessage := Some(GenericError);
      }
    }

    method HandlePrompt(prompt: string, userId: string, aiId: string, reply: Reply) returns (sent: seq<Message>)
      modifies this
      ensures sent == old(messages) + [Message(userId, User, prompt)]
      ensures View(messages, errorMessage) == PromptOutcome(old(messages), prompt, userId, aiId, reply)
    {
      var msg := Message(userId, User, prompt);
      sent := messages + [msg];
      messages := messages + [msg];
      errorMessage := None;
      if reply.NetworkFailure? || reply.response.body.None? {
        errorMessage := Some(GenericError);
        return;
      }
      var aiMessage := Message(aiId, Assistant, "");
      messages := messages + [aiMessage];
      ReadBody(aiId, reply.response.body.value.chunks);
      if reply.response.body.value.failsAfter {
        errorMessage := Some(GenericError);
      }
    }
  }

  // ---------------------------------------------------------------------
  // Properties
  // ---------------------------------------------------------------------

  lemma {:induction false} LastAcceptedAppend(a: seq<string>, b: seq<string>)
    ensures LastAccepted(a + b) == if LastAccepted(b).Some? then LastAccepted(b) else LastAccepted(a)
    decreases |a|
  {
    if a == [] {
      assert a + b == b;
    } else {
      LastAcceptedAppend(a[1..], b);
      assert (a + b)[1..] == a[1..] + b;
    }
  }

  /**
   * Applying lines changes only the messages carrying `id`: ids, roles,
   * order and length are kept, other messages are untouched, and the
   * targeted content ends as the last accepted text (last writer wins),
   * or as it was when no line was accepted.
   */
  lemma {:induction false} ApplyLinesEffect(ms: seq<Message>, id: string, lines: seq<string>)
    ensures |ApplyLines(ms, id, lines)| == |ms|
    ensures forall k :: 0 <= k < |ms| ==>
      ApplyLines(ms, id, lines)[k].id == ms[k].id && ApplyLines(ms, id, lines)[k].role == ms[k].role
    ensures forall k :: 0 <= k < |ms| && ms[k].id != id ==> ApplyLines(ms, id, lines)[k] == ms[k]
    ensures forall k :: 0 <= k < |ms| && ms[k].id == id ==>
      ApplyLines(ms, id, lines)[k].content
        == (if LastAccepted(lines).Some? then LastAccepted(lines).value else ms[k].content)
    decreases |lines|
  {
    if lines != [] {
      var init := lines[..|lines| - 1];
      var last := lines[|lines| - 1];
      ApplyLinesEffect(ms, id, init);
      LastAcceptedAppend(init, [last]);
      assert init + [last] == lines;
      assert LastAccepted([last]) == Accepted(last) by {
        assert [last][1..] == [];
      }
    }
  }

  lemma {:induction false} ApplyLinesAppend(ms: seq<Message>, id: string, a: seq<string>, b: seq<string>)
    ensures ApplyLines(ms, id, a + b) == ApplyLines(ApplyLines(ms, id, a), id, b)
    decreases |b|
  {
    if b == [] {
      assert a + b == a;
    } else {
      ApplyLinesAppend(ms, id, a, b[..|b| - 1]);
      assert (a + b)[..|a + b| - 1] == a + b[..|b| - 1];
    }
  }

  /** Reading chunk by chunk is applying all their lines in order. */
  lemma {:induction false} ApplyReadsLines(ms: seq<Message>, id: string, chunks: seq<string>)
    ensures ApplyReads(ms, id, chunks) == ApplyLines(ms, id, ReadLines(chunks))
    decreases |chunks|
  {
    if chunks != [] {
      var init := chunks[..|chunks| - 1];
      ApplyReadsLines(ms, id, init);
      ApplyLinesAppend(ms, id, ReadLines(init), Split(chunks[|chunks| - 1]));
    }
  }

  /** The conversation after `handleSubmit`'s stream, or `handlePrompt`'s, and its placeholder. */
  lemma StreamingEffect(ms: seq<Message>, aiId: string, body: Body)
    requires forall k :: 0 <= k < |ms| ==> ms[k].id != aiId
    ensures var v := Streaming(ms, aiId, body);
      && |v.messages| == |ms| + 1
      && v.messages[..|ms|] == ms
      && v.messages[|ms|] == Message(aiId, Assistant,
           if LastAccepted(ReadLines(body.chunks)).Some? then LastAccepted(ReadLines(body.chunks)).value else "")
      && (v.error.Some? <==> body.failsAfter)
  {
    var start := ms + [Message(aiId, Assistant, "")];
    ApplyReadsLines(start, aiId, body.chunks);
    ApplyLinesEffect(start, aiId, ReadLines(body.chunks));
    var v := Streaming(ms, aiId, body);
    assert forall k :: 0 <= k < |ms| ==> start[k] == ms[k];
    assert v.messages[..|ms|] == ms;
  }

  /** A 429 shows the server's `error` text, or the short fallback, and adds no placeholder. */
  lemma SubmitRateLimited(ms: seq<Message>, input: string, userId: string, aiId: string, body: Option<Body>)
    requires ErrorField(body).Some?
    ensures SubmitOutcome(ms, input, userId, aiId, Received(HttpResponse(429, body)))
      == View(ms + [Message(userId, User, input)], Some(RateLimitText(ErrorField(body).value)))
    ensures RateLimitText(ErrorField(body).value) != ""
  {
  }

  /**
   * A 429 whose body is JSON other than `null` but holds no non-empty
   * `error` string (`{}`, `{"message": …}`, `{"error": null}`) shows the
   * short fallback text.
   */
  lemma SubmitRateLimitFallback(ms: seq<Message>, input: string, userId: string, aiId: string, chunks: seq<string>)
    requires Parse(Concat(chunks)).Some? && Parse(Concat(chunks)) != Some(Null)
    requires var e := Property(Parse(Concat(chunks)).value, "error");
      !(e.Some? && e.value.Str? && e.value.s != "")
    ensures SubmitOutcome(ms, input, userId, aiId, Received(HttpResponse(429, Some(Body(chunks, false)))))
      == View(ms + [Message(userId, User, input)], Some(RateLimitFallback))
  {
    var field := ErrorField(Some(Body(chunks, false)));
    assert field.Some?;
    assert RateLimitText(field.value) == RateLimitFallback;
  }

  /** The bodies `{}` and `{"error":null}` give the fallback text; the body `null` the generic one. */
  lemma SubmitRateLimitExamples(ms: seq<Message>, input: string, userId: string, aiId: string)
    ensures SubmitOutcome(ms, input, userId, aiId, Received(HttpResponse(429, Some(Body(["{}"], false)))))
      == View(ms + [Message(userId, User, input)], Some(RateLimitFallback))
    ensures SubmitOutcome(ms, input, userId, aiId, Received(HttpResponse(429, Some(Body(["{\"error\":null}"], false)))))
      == View(ms + [Message(userId, User, input)], Some(RateLimitFallback))
    ensures SubmitOutcome(ms, input, userId, aiId, Received(HttpResponse(429, Some(Body(["null"], false)))))
      == View(ms + [Message(userId, User, input)], Some(GenericError))
  {
    ParseEmptyObject();
    ParseErrorNull();
    ParseNull();
    ConcatOne("{}");
    ConcatOne("{\"error\":null}");
    ConcatOne("null");
    SubmitRateLimitFallback(ms, input, userId, aiId, ["{}"]);
    SubmitRateLimitFallback(ms, input, userId, aiId, ["{\"error\":null}"]);
  }

  /**
   * Any other non-ok status, a 429 whose body is not JSON, a missing body
   * or a failed fetch shows the generic message and adds no placeholder.
   */
  lemma SubmitFailsGenerically(ms: seq<Message>, input: string, userId: string, aiId: string, reply: Reply)
    requires reply.NetworkFailure?
      || (!Ok(reply.response.status) && (reply.response.status != 429 || ErrorField(reply.response.body).None?))
      || reply.response.body.None?
    ensures SubmitOutcome(ms, input, userId, aiId, reply)
      == View(ms + [Message(userId, User, input)], Some(GenericError))
  {
  }

  /**
   * A usable response adds the user message and then exactly one
   * assistant message, the placeholder, whose content is the last accepted
   * text; everything already shown is kept.
   */
  lemma SubmitStreams(ms: seq<Message>, input: string, userId: string, aiId: string, status: int, body: Body)
    requires Ok(status) && userId != aiId
    requires forall k :: 0 <= k < |ms| ==> ms[k].id != aiId
    ensures var v := SubmitOutcome(ms, input, userId, aiId, Received(HttpResponse(status, Some(body))));
      && |v.messages| == |ms| + 2
      && v.messages[..|ms| + 1] == ms + [Message(userId, User, input)]
      && v.messages[|ms| + 1] == Message(aiId, Assistant,
           if LastAccepted(ReadLines(body.chunks)).Some? then LastAccepted(ReadLines(body.chunks)).value else "")
      && (v.error.Some? <==> body.failsAfter)
  {
    var withUser := ms + [Message(userId, User, input)];
    StreamingEffect(withUser, aiId, body);
  }

  /** A single chunk holding one line that is not a `data: ` line contributes nothing. */
  lemma NoDataLine(json: string)
    requires '\n' !in json && !StartsWith(json, DataPrefix)
    ensures LastAccepted(ReadLines([json])) == None
  {
    var one: seq<string> := [json];
    SplitNoNewline(json);
    assert one[..0] == [];
    assert ReadLines(one) == one;
    assert one[1..] == [];
    assert Accepted(json) == None;
    assert LastAccepted(one) == Accepted(json);
  }

  /** A `data: ` line whose JSON has the string `text` shows it when it is non-empty. */
  lemma AcceptedText(json: string, t: string)
    requires Parse(json).Some? && Property(Parse(json).value, "text") == Some(Str(t))
    ensures Accepted(DataPrefix + json) == if t != "" then Some(t) else None
  {
    var line := DataPrefix + json;
    assert line[..|DataPrefix|] == DataPrefix;
    assert line[|DataPrefix|..] == json;
  }

  /**
   * `handlePrompt` treats an error response like a stream: its JSON body
   * has no `data: ` line, so an empty placeholder stays and no error is
   * shown.
   */
  lemma PromptIgnoresErrorStatus(ms: seq<Message>, prompt: string, userId: string, aiId: string, status: int, error: string)
    requires userId != aiId
    requires forall k :: 0 <= k < |ms| ==> ms[k].id != aiId
    ensures var v := PromptOutcome(ms, prompt, userId, aiId,
        Received(HttpResponse(status, Some(Body([Stringify(ErrorPayload(error))], false)))));
      && v.messages == ms + [Message(userId, User, prompt), Message(aiId, Assistant, "")]
      && v.error == None
  {
    var json := Stringify(ErrorPayload(error));
    StringifyOneLine(ErrorPayload(error));
    assert json[0] == '{';
    NoDataLine(json);
    var withUser := ms + [Message(userId, User, prompt)];
    var body := Body([json], false);
    StreamingEffect(withUser, aiId, body);
    var v := Streaming(withUser, aiId, body);
    assert v.messages == v.messages[..|withUser|] + [v.messages[|withUser|]];
  }
}

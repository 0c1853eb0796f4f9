/**
 * The server's event stream read by the page: frames written by the
 * conversation endpoint, delivered in reads that each carry whole frames,
 * leave the assistant placeholder holding the last non-empty cumulative
 * text, which is the whole streamed answer. Also: error responses as the
 * page shows them, frames cut by a read boundary, and the earlier
 * endpoint's `{content}` frames, which the page ignores.
 */
module EndToEnd {
  import opened Wrappers
  import opened ChatTypes
  import opened Strings
  import opened Json
  import opened ChatRoute
  import opened ChatPage
  import OldChatRoute

  /** The bytes of consecutive frames. */
  function EncodeAll(fs: seq<Frame>): string
    decreases |fs|
  {
    if fs == [] then "" else EncodeFrame(fs[0]) + EncodeAll(fs[1..])
  }

  /** Frames grouped by the read that delivers them, in order. */
  function Flatten(groups: seq<seq<Frame>>): seq<Frame>
    decreases |groups|
  {
    if groups == [] then [] else Flatten(groups[..|groups| - 1]) + groups[|groups| - 1]
  }

  /** What each read delivers. */
  function Wire(groups: seq<seq<Frame>>): (r: seq<string>)
    ensures |r| == |groups|
    ensures forall i :: 0 <= i < |groups| ==> r[i] == EncodeAll(groups[i])
  {
    seq(|groups|, i requires 0 <= i < |groups| => EncodeAll(groups[i]))
  }

  /** The text of the last frame whose text is non-empty. */
  function LastShown(fs: seq<Frame>): Option<string>
    decreases |fs|
  {
    if fs == [] then None
    else
      var later := LastShown(fs[1..]);
      if later.Some? then later else if fs[0].text != "" then Some(fs[0].text) else None
  }

  /** The line a frame is written as, without its two newlines. */
  function FrameLine(f: Frame): string {
    "data: " + Stringify(TextPayload(f.text, f.done))
  }

  /** A frame's line holds no newline. */
  lemma FrameLineOneLine(f: Frame)
    ensures '\n' !in FrameLine(f)
  {
    var json := Stringify(TextPayload(f.text, f.done));
    StringifyOneLine(TextPayload(f.text, f.done));
    assert forall c :: c in FrameLine(f) ==> c in DataPrefix || c in json;
  }

  /** The page accepts a frame's line exactly when its text is non-empty. */
  lemma FrameLineAccepted(f: Frame)
    ensures '\n' !in FrameLine(f)
    ensures Accepted(FrameLine(f)) == if f.text != "" then Some(f.text) else None
  {
    FrameLineOneLine(f);
    StringifyProperties(TextPayload(f.text, f.done));
    AcceptedText(Stringify(TextPayload(f.text, f.done)), f.text);
  }

  lemma EmptyLineIgnored()
    ensures LastAccepted(Split("")) == None
  {
    assert Split("") == [""];
    var one: seq<string> := [""];
    assert one[1..] == [];
    assert !StartsWith("", DataPrefix);
  }

  /** A line, its blank separator line, then more lines. */
  lemma LineThenRest(line: string, rest: string)
    requires '\n' !in line
    ensures var later := LastAccepted(Split(rest));
      LastAccepted(Split(line + "\n\n" + rest)) == if later.Some? then later else Accepted(line)
  {
    assert line + "\n\n" + rest == line + "\n" + ("\n" + rest);
    SplitLine(line, "\n" + rest);
    assert ("\n" + rest)[1..] == rest;
    assert Split("\n" + rest) == [""] + Split(rest);
    var lines := [line] + ([""] + Split(rest));
    assert lines[1..] == [""] + Split(rest);
    assert lines[1..][1..] == Split(rest);
    assert !StartsWith("", DataPrefix);
  }

  /** The lines of a read holding whole frames show the last non-empty frame text. */
  lemma {:induction false} EncodedFramesShown(fs: seq<Frame>)
    ensures LastAccepted(Split(EncodeAll(fs))) == LastShown(fs)
    decreases |fs|
  {
    if fs == [] {
      EmptyLineIgnored();
    } else {
      var line := FrameLine(fs[0]);
      var rest := EncodeAll(fs[1..]);
      FrameLineAccepted(fs[0]);
      EncodedFramesShown(fs[1..]);
      assert EncodeAll(fs) == line + "\n\n" + rest;
      LineThenRest(line, rest);
    }
  }

  lemma {:induction false} LastShownAppend(a: seq<Frame>, b: seq<Frame>)
    ensures LastShown(a + b) == if LastShown(b).Some? then LastShown(b) else LastShown(a)
    decreases |a|
  {
    if a == [] {
      assert a + b == b;
    } else {
      LastShownAppend(a[1..], b);
      assert (a + b)[1..] == a[1..] + b;
    }
  }

  /** Reads that each carry whole frames show the last non-empty text of all frames. */
  lemma {:induction false} WireShown(groups: seq<seq<Frame>>)
    ensures LastAccepted(ReadLines(Wire(groups))) == LastShown(Flatten(groups))
    decreases |groups|
  {
    if groups == [] {
      assert Wire(groups) == [];
    } else {
      var init := groups[..|groups| - 1];
      var last := groups[|groups| - 1];
      WireShown(init);
      assert Wire(groups)[..|groups| - 1] == Wire(init);
      EncodedFramesShown(last);
      LastAcceptedAppend(ReadLines(Wire(init)), Split(EncodeAll(last)));
      LastShownAppend(Flatten(init), last);
    }
  }

  /** A non-empty list of frames with non-empty texts shows its last text. */
  lemma {:induction false} LastShownOfNonEmpty(fs: seq<Frame>)
    requires fs != [] && forall k :: 0 <= k < |fs| ==> fs[k].text != ""
    ensures LastShown(fs) == Some(fs[|fs| - 1].text)
    decreases |fs|
  {
    if |fs| > 1 {
      LastShownOfNonEmpty(fs[1..]);
    }
  }

  /** The server's frames show the whole streamed answer, when it is not empty. */
  lemma AnswerShown(up: Upstream)
    ensures LastShown(Answer(up).frames) == if Streamed(up.deltas) != "" then Some(Streamed(up.deltas)) else None
  {
    var pf := ProgressFrames(up.deltas);
    ProgressFramesShape(up.deltas);
    StreamedEmptyIff(up.deltas);
    if pf != [] {
      LastShownOfNonEmpty(pf);
    }
    if !up.failsAtEnd {
      var done := [Frame(Streamed(up.deltas), true)];
      LastShownAppend(pf, done);
      assert done[1..] == [];
    }
  }

  /** How a response of the endpoint reaches the page, its stream cut into the given reads. */
  function Deliver(resp: Response, groups: seq<seq<Frame>>): Reply {
    match resp
    case EventStream(_, end) => Received(HttpResponse(200, Some(Body(Wire(groups), end == Errored))))
    case JsonError(status, error) => Received(HttpResponse(status, Some(Body([Stringify(ErrorPayload(error))], false))))
  }

  /**
   * Round trip: whatever the read boundaries between whole frames, after
   * `handleSubmit` the placeholder holds exactly the text the model
   * streamed; the error banner appears only if the upstream failed.
   */
  lemma SubmitShowsAnswer(ms: seq<Message>, input: string, userId: string, aiId: string, up: Upstream, groups: seq<seq<Frame>>)
    requires Flatten(groups) == Answer(up).frames
    requires userId != aiId
    requires forall k :: 0 <= k < |ms| ==> ms[k].id != aiId
    ensures var v := SubmitOutcome(ms, input, userId, aiId, Deliver(Answer(up), groups));
      && |v.messages| == |ms| + 2
      && v.messages[..|ms| + 1] == ms + [Message(userId, User, input)]
      && v.messages[|ms| + 1] == Message(aiId, Assistant, Streamed(up.deltas))
      && v.error == (if up.failsAtEnd then Some(GenericError) else None)
  {
    var body := Body(Wire(groups), up.failsAtEnd);
    assert Deliver(Answer(up), groups) == Received(HttpResponse(200, Some(body)));
    SubmitStreams(ms, input, userId, aiId, 200, body);
    WireShown(groups);
    AnswerShown(up);
  }

  /** An error response's JSON is read back for the 429 branch. */
  lemma ErrorBodyRead(error: string)
    ensures ErrorField(Some(Body([Stringify(ErrorPayload(error))], false))) == Some(Some(error))
  {
    var json := Stringify(ErrorPayload(error));
    ConcatOne(json);
    ParseStringify(ErrorPayload(error));
    StringifyProperties(ErrorPayload(error));
  }

  /** A 429 from the endpoint shows its "Rate limit exceeded" text and no placeholder. */
  lemma SubmitShowsRateLimit(ms: seq<Message>, input: string, userId: string, aiId: string, groups: seq<seq<Frame>>)
    ensures SubmitOutcome(ms, input, userId, aiId, Deliver(JsonError(429, RateLimitMessage), groups))
      == View(ms + [Message(userId, User, input)], Some(RateLimitMessage))
  {
    SubmitShows429(ms, input, userId, aiId, RateLimitMessage, groups);
  }

  /** A 429 whose JSON body has a non-empty `error` shows that text. */
  lemma SubmitShows429(ms: seq<Message>, input: string, userId: string, aiId: string, error: string, groups: seq<seq<Frame>>)
    requires error != ""
    ensures SubmitOutcome(ms, input, userId, aiId, Deliver(JsonError(429, error), groups))
      == View(ms + [Message(userId, User, input)], Some(error))
  {
    var body := Some(Body([Stringify(ErrorPayload(error))], false));
    assert Deliver(JsonError(429, error), groups) == Received(HttpResponse(429, body));
    ErrorBodyRead(error);
    assert RateLimitText(Some(error)) == error;
  }

  /** A 500 from the endpoint shows the generic text, not the server's. */
  lemma SubmitHidesServerError(ms: seq<Message>, input: string, userId: string, aiId: string, error: string, groups: seq<seq<Frame>>)
    ensures SubmitOutcome(ms, input, userId, aiId, Deliver(JsonError(500, error), groups))
      == View(ms + [Message(userId, User, input)], Some(GenericError))
  {
  }

  /** No line of a chunk is accepted, so the messages stay as they are. */
  lemma NothingAccepted(ms: seq<Message>, id: string, chunks: seq<string>)
    requires LastAccepted(ReadLines(chunks)) == None
    ensures ApplyReads(ms, id, chunks) == ms
  {
    ApplyReadsLines(ms, id, chunks);
    ApplyLinesEffect(ms, id, ReadLines(chunks));
    var r := ApplyReads(ms, id, chunks);
    assert forall k :: 0 <= k < |ms| ==> r[k] == ms[k];
  }

  /** The `data: {"text":` start shared by every frame. */
  const FramePrefix := "data: " + TextKey

  lemma FrameStartsWithPrefix(f: Frame)
    ensures EncodeFrame(f) == FramePrefix + Quote(f.text) + (if f.done then DoneTrue else DoneFalse) + "\n\n"
    ensures FrameLine(f) == FramePrefix + Quote(f.text) + (if f.done then DoneTrue else DoneFalse)
    ensures EncodeFrame(f) == FrameLine(f) + "\n\n"
  {
    var q := Quote(f.text);
    var d := if f.done then DoneTrue else DoneFalse;
    var json := Stringify(TextPayload(f.text, f.done));
    assert json == TextKey + q + d;
    assert FrameLine(f) == "data: " + json;
    assert "data: " + (TextKey + q + d) == FramePrefix + q + d;
  }

  lemma ReadLinesPair(a: string, b: string)
    ensures ReadLines([a, b]) == Split(a) + Split(b)
  {
    var two: seq<string> := [a, b];
    var one: seq<string> := [a];
    assert two[..1] == one;
    assert one[..0] == [];
    assert ReadLines(one) == Split(a);
  }

  /** A read ending inside the `data: {"text":` start holds one line, not accepted. */
  lemma PrefixPieceIgnored(k: nat)
    requires 1 <= k <= |FramePrefix|
    ensures Split(FramePrefix[..k]) == [FramePrefix[..k]]
    ensures Accepted(FramePrefix[..k]) == None
  {
    var first := FramePrefix[..k];
    assert '\n' !in first;
    SplitNoNewline(first);
    assert |DataPrefix| == 6;
    if StartsWith(first, DataPrefix) {
      var payload := first[|DataPrefix|..];
      assert payload == TextKey[..k - 6];
      TruncatedTextKey(k - 6);
    }
  }

  /** A string literal never closed is a syntax error. */
  lemma {:induction false} ScanUnterminated(u: string)
    requires forall i :: 0 <= i < |u| ==> u[i] != '"' && u[i] != '\\'
    ensures ScanChars(u) == None
    decreases |u|
  {
    if u != [] {
      ScanUnterminated(u[1..]);
    }
  }

  /** A key with no colon after it, or a colon and nothing more, is a syntax error. */
  lemma KeyWithoutValue(key: string, qk: string, after: string)
    requires Plain(key) && qk == "\"" + key + "\""
    requires after == "" || after == ":"
    ensures ParseMembers(qk + after) == None
  {
    QuotedKey(key, qk);
    var body := Quote(key) + after;
    QuoteRoundTrip(key, after);
    assert body[0] == '"';
    assert SkipWs(after) == after;
    if after == ":" {
      assert ParseElement(after[1..]) == None;
    }
  }

  /** Every proper start of `{"text":` is a syntax error. */
  lemma TruncatedTextKey(j: nat)
    requires j <= |TextKey|
    ensures Parse(TextKey[..j]) == None
  {
    var s := TextKey[..j];
    if j == 0 {
      assert s == [];
    } else {
      assert s[0] == '{' && s[1..] == TextKey[1..j];
      TruncatedMembers(j);
      ObjectFails(s);
    }
  }

  /** An object whose members fail to parse is a syntax error. */
  lemma ObjectFails(s: string)
    requires s != [] && s[0] == '{' && ParseObject(s[1..]) == None
    ensures Parse(s) == None
  {
    ElementAt(s);
  }

  /** What follows the brace of a proper start of `{"text":` never reads as members. */
  lemma TruncatedMembers(j: nat)
    requires 1 <= j <= |TextKey|
    ensures ParseObject(TextKey[1..j]) == None
  {
    var body := TextKey[1..j];
    if j == 1 {
      assert body == [];
    } else if j < 7 {
      var u := TextKey[2..j];
      assert body[0] == '"' && body[1..] == u;
      assert forall i :: 2 <= i < 6 ==> TextKey[i] != '"' && TextKey[i] != '\\';
      assert forall i :: 0 <= i < |u| ==> u[i] == TextKey[2 + i];
      ScanUnterminated(u);
      assert ParseString(body) == None;
      assert SkipWs(body) == body;
    } else {
      var after := if j == 7 then "" else ":";
      assert body == "\"text\"" + after;
      KeyWithoutValue("text", "\"text\"", after);
      assert SkipWs(body) == body;
    }
  }

  /** The lines of what follows position k of a line and its two newlines. */
  lemma TwoNewlines(line: string, k: nat)
    requires k <= |line| && '\n' !in line
    ensures Split((line + "\n\n")[k..]) == [line[k..], "", ""]
  {
    var tail := line[k..];
    assert (line + "\n\n")[k..] == tail + "\n" + "\n";
    assert '\n' !in tail by {
      assert forall c :: c in tail ==> c in line;
    }
    SplitLine(tail, "\n");
    SplitLine("", "");
    assert "" + "\n" + "" == "\n";
  }

  /** No line accepted, nothing shown. */
  lemma {:induction false} NoneAccepted(lines: seq<string>)
    requires forall k :: 0 <= k < |lines| ==> Accepted(lines[k]) == None
    ensures LastAccepted(lines) == None
    decreases |lines|
  {
    if lines != [] {
      NoneAccepted(lines[1..]);
    }
  }

  /** The rest of that frame, in the next read, is one line and two empty ones. */
  lemma TailPieceLines(f: Frame, k: nat)
    requires 1 <= k <= |FramePrefix|
    ensures Split(EncodeFrame(f)[k..]) == [FrameLine(f)[k..], "", ""]
  {
    var line := FrameLine(f);
    assert EncodeFrame(f) == line + "\n\n";
    FrameLineOneLine(f);
    TwoNewlines(line, k);
  }

  /** That line starts with a character other than the `d` of `data: `. */
  lemma TailPieceIgnored(f: Frame, k: nat)
    requires 1 <= k <= |FramePrefix|
    ensures k < |FrameLine(f)| && FrameLine(f)[k] != 'd'
  {
    var q := Quote(f.text);
    var d := if f.done then DoneTrue else DoneFalse;
    FrameStartsWithPrefix(f);
    assert q[0] == '"';
    NoSecondD(q, d, k);
  }

  /** Past its first character, a frame's line has no `d` before the text's opening quote. */
  lemma NoSecondD(q: string, d: string, k: nat)
    requires 1 <= k <= |FramePrefix| && q != [] && q[0] == '"'
    ensures k < |FramePrefix + q + d| && (FramePrefix + q + d)[k] != 'd'
  {
    if k == |FramePrefix| {
      assert (FramePrefix + q + d)[k] == q[0];
    } else {
      assert (FramePrefix + q + d)[k] == FramePrefix[k];
      assert forall j :: 1 <= j < |FramePrefix| ==> FramePrefix[j] != 'd';
    }
  }

  /** A line not starting with `d` is not a `data: ` line. */
  lemma NotDataLine(s: string)
    requires s != [] && s[0] != 'd'
    ensures Accepted(s) == None
  {
    if |DataPrefix| <= |s| {
      assert s[..|DataPrefix|][0] == s[0];
    }
  }

  /**
   * Lines are split per read with nothing carried over: a frame cut by a
   * read boundary inside its `data: {"text":` start is lost, and the
   * placeholder keeps its content.
   */
  lemma SplitFrameDropped(ms: seq<Message>, id: string, f: Frame, k: nat)
    requires 1 <= k <= |FramePrefix|
    ensures ApplyReads(ms, id, [EncodeFrame(f)[..k], EncodeFrame(f)[k..]]) == ms
  {
    var e := EncodeFrame(f);
    FrameStartsWithPrefix(f);
    var first := e[..k];
    var second := e[k..];
    var tail := FrameLine(f)[k..];
    assert first == FramePrefix[..k];
    PrefixPieceIgnored(k);
    TailPieceLines(f, k);
    TailPieceIgnored(f, k);
    assert tail[0] == FrameLine(f)[k];
    NotDataLine(tail);
    ReadLinesPair(first, second);
    var lines := [first] + [tail, "", ""];
    assert ReadLines([first, second]) == lines;
    assert !StartsWith("", DataPrefix);
    NoneAccepted(lines);
    NothingAccepted(ms, id, [first, second]);
  }

  /** A line followed only by empty lines shows what that line shows. */
  lemma LineThenBlanks(line: string, blanks: seq<string>)
    requires forall i :: 0 <= i < |blanks| ==> blanks[i] == ""
    ensures LastAccepted([line] + blanks) == Accepted(line)
  {
    assert !StartsWith("", DataPrefix);
    NoneAccepted(blanks);
    LastAcceptedAppend([line], blanks);
    assert [line][1..] == [];
  }

  lemma CutAt(a: string, b: string)
    ensures (a + b)[..|a|] == a && (a + b)[|a|..] == b
  {
  }

  /** The two pieces of a line and its two newlines, cut at or after the line's end. */
  lemma CutAfterLine(line: string, k: nat)
    requires '\n' !in line && |line| <= k <= |line| + 2
    ensures ReadLines([(line + "\n\n")[..k], (line + "\n\n")[k..]]) == [line, "", "", ""]
  {
    var e := line + "\n\n";
    ReadLinesPair(e[..k], e[k..]);
    SplitNoNewline(line);
    SplitNoNewline("");
    if k == |line| {
      CutAt(line, "\n\n");
      assert e[..k] == line && e[k..] == "" + "\n" + "\n";
      SplitLine("", "\n");
      SplitLine("", "");
      assert "" + "\n" + "" == "\n";
    } else if k == |line| + 1 {
      assert e == (line + "\n") + "\n";
      CutAt(line + "\n", "\n");
      assert e[..k] == line + "\n" + "" && e[k..] == "" + "\n" + "";
      SplitLine(line, "");
      SplitLine("", "");
    } else {
      CutAt(e, "");
      assert e + "" == e;
      assert e[..k] == line + "\n" + "\n" && e[k..] == "";
      SplitLine(line, "\n");
      SplitLine("", "");
      assert "" + "\n" + "" == "\n";
    }
  }

  /**
   * A read boundary at or after the end of a frame's line, among its two
   * newlines, keeps the frame: the page shows its text when non-empty.
   */
  lemma SplitAfterLineKept(f: Frame, k: nat)
    requires |FrameLine(f)| <= k <= |EncodeFrame(f)|
    ensures LastAccepted(ReadLines([EncodeFrame(f)[..k], EncodeFrame(f)[k..]]))
      == if f.text != "" then Some(f.text) else None
  {
    FrameStartsWithPrefix(f);
    FrameLineAccepted(f);
    KeptAfterCut(FrameLine(f), k);
  }

  /** A line cut at or after its end, among its two newlines, shows what the line shows. */
  lemma KeptAfterCut(line: string, k: nat)
    requires '\n' !in line && |line| <= k <= |line| + 2
    ensures LastAccepted(ReadLines([(line + "\n\n")[..k], (line + "\n\n")[k..]])) == Accepted(line)
  {
    CutAfterLine(line, k);
    LineThenBlanks(line, ["", "", ""]);
    assert [line] + ["", "", ""] == [line, "", "", ""];
  }

  /** The earlier endpoint's lines for a list of contents. */
  function OldWire(contents: seq<string>): string
    decreases |contents|
  {
    if contents == [] then "" else OldChatRoute.EncodeContent(contents[0]) + OldWire(contents[1..])
  }

  /**
   * The page reads only `text`: a read of the earlier endpoint's
   * `{content}` frames changes no message.
   */
  lemma {:induction false} OldFramesIgnoredLines(contents: seq<string>)
    ensures LastAccepted(Split(OldWire(contents))) == None
    decreases |contents|
  {
    if contents == [] {
      EmptyLineIgnored();
    } else {
      var json := Stringify(ContentPayload(contents[0]));
      var line := "data: " + json;
      var rest := OldWire(contents[1..]);
      StringifyOneLine(ContentPayload(contents[0]));
      StringifyProperties(ContentPayload(contents[0]));
      assert line[..|DataPrefix|] == DataPrefix && line[|DataPrefix|..] == json;
      assert Accepted(line) == None;
      assert '\n' !in line by {
        assert forall c :: c in line ==> c in DataPrefix || c in json;
      }
      OldFramesIgnoredLines(contents[1..]);
      assert OldWire(contents) == line + "\n\n" + rest;
      LineThenRest(line, rest);
    }
  }

  lemma OldFramesIgnored(ms: seq<Message>, id: string, contents: seq<string>)
    ensures ApplyReads(ms, id, [OldWire(contents)]) == ms
  {
    OldFramesIgnoredLines(contents);
    var one: seq<string> := [OldWire(contents)];
    assert one[..0] == [];
    assert ReadLines(one) == Split(OldWire(contents));
    NothingAccepted(ms, id, one);
  }
}

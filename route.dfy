/**
 * The conversation endpoint (app/api/chat/route.ts): the query, the
 * retrieval decision with its text fallback, the numbered system prompt,
 * the completion request, the cumulative event-stream loop and the
 * mapping of errors to 429/500 responses.
 *
 * The embedder, the passage store and the chat model are parameters: the
 * handler only sees what they return.
 */
module ChatRoute {
  import opened Wrappers
  import opened ChatTypes
  import opened Strings
  import opened Json

  /** A stored passage as the searches project it; its vector and score stay opaque. */
  datatype Passage = Passage(text: string, url: string)

  type Embedding = seq<real>

  /** The request body: its `messages`, or the error reading them threw. */
  datatype Body = Parsed(messages: seq<Message>) | Unreadable(error: ErrorInfo)

  datatype ChatRole = SystemRole | Said(role: Role)

  /** A message of the completion request, `{role, content}`. */
  datatype ChatMessage = ChatMessage(role: ChatRole, content: string)

  /** One event of the stream, `{text, done}`. */
  datatype Frame = Frame(text: string, done: bool)

  /** How the response stream finishes: closed normally, or errored. */
  datatype StreamEnd = Closed | Errored

  datatype Response =
    | EventStream(frames: seq<Frame>, end: StreamEnd)
    | JsonError(status: int, error: string)

  const RateLimitMessage := "Rate limit exceeded. Please try again later."
  const EmbeddingErrorMessage := "Error creating embeddings"
  const InternalErrorMessage := "Internal Server Error"

  /** `new Error("No relevant documents found in search")` carries no status. */
  const NoDocuments := ErrorInfo(None)

  /** `messages[messages.length - 1]?.content`; None stands for `undefined`. */
  function Query(messages: seq<Message>): Option<string> {
    if |messages| == 0 then None else Some(messages[|messages| - 1].content)
  }

  // ---------------------------------------------------------------------
  // The fallback pattern /elders.*quorum|quorum.*elders/i
  // ---------------------------------------------------------------------

  function Lower(c: char): char {
    if 'A' <= c <= 'Z' then (c as int - 'A' as int + 'a' as int) as char else c
  }

  /** `t` begins with the lower-case word `w`, ignoring case. */
  predicate StartsWithWord(t: string, w: string) {
    |w| <= |t| && forall k :: 0 <= k < |w| ==> Lower(t[k]) == w[k]
  }

  /**
   * `w1` at offset `i`, `w2` at the later offset `j`, and no newline
   * (which `.` does not match) between the end of `w1` and the start of `w2`.
   */
  ghost predicate PatternAt(t: string, w1: string, w2: string, i: int, j: int) {
    0 <= i && i + |w1| <= j <= |t| && StartsWithWord(t[i..], w1)
      && StartsWithWord(t[j..], w2) && '\n' !in t[i + |w1|..j]
  }

  /** The meaning of `w1.*w2` with the `i` flag: a match at some pair of offsets. */
  ghost predicate PatternSpec(t: string, w1: string, w2: string) {
    exists i, j :: PatternAt(t, w1, w2, i, j)
  }

  /** `w2` occurs in `u` before any newline. */
  function SearchSecond(u: string, w2: string): bool
    decreases |u|
  {
    StartsWithWord(u, w2) || (u != [] && u[0] != '\n' && SearchSecond(u[1..], w2))
  }

  /** The scan for `w1.*w2`: try every start offset, then look for `w2` on the same line. */
  function SearchFirst(t: string, w1: string, w2: string): bool
    decreases |t|
  {
    (StartsWithWord(t, w1) && SearchSecond(t[|w1|..], w2)) || (t != [] && SearchFirst(t[1..], w1, w2))
  }

  /** Whether a passage text satisfies the fallback `$regex`. */
  predicate MentionsEldersQuorum(t: string) {
    SearchFirst(t, "elders", "quorum") || SearchFirst(t, "quorum", "elders")
  }

  /** `w2` at offset `j` of `u`, with no newline before it. */
  ghost predicate SecondAt(u: string, w2: string, j: int) {
    0 <= j <= |u| && StartsWithWord(u[j..], w2) && '\n' !in u[..j]
  }

  lemma {:induction false} SearchSecondSound(u: string, w2: string)
    requires SearchSecond(u, w2)
    ensures exists j :: SecondAt(u, w2, j)
    decreases |u|
  {
    if StartsWithWord(u, w2) {
      assert u[0..] == u && u[..0] == [];
      assert SecondAt(u, w2, 0);
    } else {
      SearchSecondSound(u[1..], w2);
      var j :| SecondAt(u[1..], w2, j);
      assert u[j + 1..] == u[1..][j..];
      assert u[..j + 1] == [u[0]] + u[1..][..j];
      assert SecondAt(u, w2, j + 1);
    }
  }

  lemma {:induction false} SearchSecondComplete(u: string, w2: string, j: nat)
    requires j <= |u| && StartsWithWord(u[j..], w2) && '\n' !in u[..j]
    ensures SearchSecond(u, w2)
    decreases j
  {
    if j == 0 {
      assert u[0..] == u;
    } else {
      assert u[0] in u[..j];
      assert u[1..][j - 1..] == u[j..];
      assert u[1..][..j - 1] == u[1..j];
      assert forall c :: c in u[1..j] ==> c in u[..j];
      SearchSecondComplete(u[1..], w2, j - 1);
    }
  }

  lemma PatternAtSpec(t: string, w1: string, w2: string, i: int, j: int)
    requires PatternAt(t, w1, w2, i, j)
    ensures PatternSpec(t, w1, w2)
  {
  }

  lemma PatternHere(t: string, w1: string, w2: string)
    requires StartsWithWord(t, w1) && SearchSecond(t[|w1|..], w2)
    ensures PatternSpec(t, w1, w2)
  {
    var u := t[|w1|..];
    SearchSecondSound(u, w2);
    var j :| SecondAt(u, w2, j);
    assert t[0..] == t;
    assert t[|w1| + j..] == u[j..];
    assert t[|w1|..|w1| + j] == u[..j];
    PatternAtSpec(t, w1, w2, 0, |w1| + j);
  }

  lemma PatternAtShift(t: string, w1: string, w2: string, i: int, j: int)
    requires t != [] && PatternAt(t[1..], w1, w2, i, j)
    ensures PatternAt(t, w1, w2, i + 1, j + 1)
  {
    DropFirstSlice(t, i, j);
    DropFirstSlice(t, i + |w1|, j);
    DropFirstSlice(t, j, j);
  }

  lemma DropFirstSlice(t: string, a: int, b: int)
    requires t != [] && 0 <= a <= b <= |t| - 1
    ensures t[1..][a..b] == t[a + 1..b + 1]
    ensures t[1..][a..] == t[a + 1..]
  {
  }

  lemma PatternShift(t: string, w1: string, w2: string)
    requires t != [] && PatternSpec(t[1..], w1, w2)
    ensures PatternSpec(t, w1, w2)
  {
    var i, j :| PatternAt(t[1..], w1, w2, i, j);
    PatternAtShift(t, w1, w2, i, j);
    PatternAtSpec(t, w1, w2, i + 1, j + 1);
  }

  lemma {:induction false} SearchFirstSound(t: string, w1: string, w2: string)
    requires SearchFirst(t, w1, w2)
    ensures PatternSpec(t, w1, w2)
    decreases |t|
  {
    if StartsWithWord(t, w1) && SearchSecond(t[|w1|..], w2) {
      PatternHere(t, w1, w2);
    } else {
      SearchFirstSound(t[1..], w1, w2);
      PatternShift(t, w1, w2);
    }
  }

  lemma {:induction false} SearchFirstComplete(t: string, w1: string, w2: string, i: nat, j: nat)
    requires i + |w1| <= j <= |t| && StartsWithWord(t[i..], w1)
    requires StartsWithWord(t[j..], w2) && '\n' !in t[i + |w1|..j]
    ensures SearchFirst(t, w1, w2)
    decreases i
  {
    if i == 0 {
      var u := t[|w1|..];
      assert t[0..] == t;
      assert u[j - |w1|..] == t[j..];
      assert u[..j - |w1|] == t[|w1|..j];
      SearchSecondComplete(u, w2, j - |w1|);
    } else {
      var s := t[1..];
      DropFirstSlice(t, i - 1, j - 1);
      DropFirstSlice(t, i - 1 + |w1|, j - 1);
      DropFirstSlice(t, j - 1, j - 1);
      SearchFirstComplete(s, w1, w2, i - 1, j - 1);
    }
  }

  /** The scan decides the pattern exactly. */
  lemma SearchFirstCorrect(t: string, w1: string, w2: string)
    ensures SearchFirst(t, w1, w2) <==> PatternSpec(t, w1, w2)
  {
    if SearchFirst(t, w1, w2) {
      SearchFirstSound(t, w1, w2);
    }
    if PatternSpec(t, w1, w2) {
      var i, j :| PatternAt(t, w1, w2, i, j);
      SearchFirstComplete(t, w1, w2, i, j);
    }
  }

  /** The fallback filter is the regular expression's alternation. */
  lemma MentionsEldersQuorumCorrect(t: string)
    ensures MentionsEldersQuorum(t) <==> PatternSpec(t, "elders", "quorum") || PatternSpec(t, "quorum", "elders")
  {
    SearchFirstCorrect(t, "elders", "quorum");
    SearchFirstCorrect(t, "quorum", "elders");
  }

  // ---------------------------------------------------------------------
  // Retrieval decision
  // ---------------------------------------------------------------------

  const FallbackLimit := 5

  /** The passages of the collection that satisfy the pattern, in collection order. */
  function Matching(collection: seq<Passage>): (r: seq<Passage>)
    ensures IsSubsequence(r, collection)
    ensures forall p :: p in r <==> p in collection && MentionsEldersQuorum(p.text)
    ensures forall p :: multiset(r)[p] == if MentionsEldersQuorum(p.text) then multiset(collection)[p] else 0
    decreases |collection|
  {
    if collection == [] then []
    else
      assert collection == [collection[0]] + collection[1..];
      if MentionsEldersQuorum(collection[0].text) then [collection[0]] + Matching(collection[1..])
      else Matching(collection[1..])
  }

  /** `collection.find({text: {$regex}}).limit(5)`: the first five matches in natural order. */
  function FallbackMatches(collection: seq<Passage>): seq<Passage> {
    var m := Matching(collection);
    if |m| <= FallbackLimit then m else m[..FallbackLimit]
  }

  /**
   * The documents the prompt is built from: the vector hits if there are
   * any, else the fallback matches (pushed onto the empty hit list), else
   * the "no relevant documents" error. An error reading the collection
   * propagates.
   */
  function SelectDocuments(hits: seq<Passage>, collection: Result<seq<Passage>, ErrorInfo>): (r: Result<seq<Passage>, ErrorInfo>)
    ensures |hits| > 0 ==> r == Success(hits)
    ensures |hits| == 0 && r.Success? ==>
      && collection.Success?
      && 0 < |r.value| <= FallbackLimit
      && IsSubsequence(r.value, collection.value)
      && r.value <= Matching(collection.value)
      && (forall p :: p in r.value ==> MentionsEldersQuorum(p.text))
    ensures |hits| == 0 && collection.Success? ==>
      (r.Success? <==> exists p :: p in collection.value && MentionsEldersQuorum(p.text))
    ensures |hits| == 0 && r.Success? ==>
      |r.value| == if |Matching(collection.value)| < FallbackLimit then |Matching(collection.value)| else FallbackLimit
    ensures |hits| == 0 && collection.Success? && r.Failure? ==> r.error == NoDocuments
    ensures |hits| == 0 && collection.Failure? ==> r == Failure(collection.error)
  {
    if |hits| > 0 then Success(hits)
    else
      match collection
      case Failure(e) => Failure(e)
      case Success(c) =>
        var textResults := FallbackMatches(c);
        FallbackFacts(c);
        if |textResults| > 0 then
          assert hits + textResults == textResults;
          Success(hits + textResults)
        else
          Failure(NoDocuments)
  }

  /** The fallback matches: a prefix of the matching passages, empty exactly when nothing matches. */
  lemma FallbackFacts(c: seq<Passage>)
    ensures FallbackMatches(c) <= Matching(c)
    ensures IsSubsequence(FallbackMatches(c), c)
    ensures |FallbackMatches(c)| == if |Matching(c)| < FallbackLimit then |Matching(c)| else FallbackLimit
    ensures |FallbackMatches(c)| > 0 <==> exists p :: p in c && MentionsEldersQuorum(p.text)
  {
    var m := Matching(c);
    var f := FallbackMatches(c);
    SubsequencePrefix(m, c, |f|);
    assert m[..|m|] == m;
    if |f| > 0 {
      assert f[0] in m;
    } else {
      assert forall p :: p in c && MentionsEldersQuorum(p.text) ==> p in m;
    }
  }

  // ---------------------------------------------------------------------
  // Prompt assembly
  // ---------------------------------------------------------------------

  const Indent := "                "

  const Refusal := "I don't have enough information to answer that question. Please refer to your local church leaders for more specific guidance."

  const PromptHead :=
    "You are an AI assistant focused on providing information about The Church of Jesus Christ of Latter-day Saints, with special emphasis on the Elders Quorum.\n\n"
    + Indent + "PRIMARY SOURCE - Church Handbook excerpts:\n"
    + Indent

  const PromptGuidelines :=
    "\n\n"
    + Indent + "SECONDARY SOURCE - Official Church Website (churchofjesuschrist.org):\n"
    + Indent + "If you cannot find specific information in the handbook excerpts above, you may ONLY reference official information from churchofjesuschrist.org. \n"
    + Indent + "\n"
    + Indent + "RESPONSE GUIDELINES:\n"
    + Indent + "1. First, try to answer using the handbook excerpts provided above\n"
    + Indent + "2. If the handbook excerpts don't contain the information, you may provide information from churchofjesuschrist.org\n"
    + Indent + "3. Always cite your source:\n"
    + Indent + "   - For handbook excerpts, cite as [Handbook Excerpt #]\n"
    + Indent + "   - For church website, cite as [churchofjesuschrist.org]\n"
    + Indent + "4. Do not make assumptions or add information from any other sources\n"
    + Indent + "5. If the information cannot be found in either source, say \""

  const PromptEnd := "\"\n" + Indent

  /** `[${i + 1}] ${text}` for the passage at 0-based position `i`. */
  function Excerpt(i: nat, text: string): string {
    "[" + NatToString(i + 1) + "] " + text
  }

  /** The passages numbered in result order and joined by blank lines. */
  function Excerpts(texts: seq<string>): string {
    Join(seq(|texts|, i requires 0 <= i < |texts| => Excerpt(i, texts[i])), "\n\n")
  }

  function Texts(docs: seq<Passage>): (r: seq<string>)
    ensures |r| == |docs| && forall i :: 0 <= i < |docs| ==> r[i] == docs[i].text
    decreases |docs|
  {
    if docs == [] then [] else [docs[0].text] + Texts(docs[1..])
  }

  /** The content of the system message. */
  function SystemPrompt(texts: seq<string>): string {
    PromptHead + Excerpts(texts) + PromptGuidelines + Refusal + PromptEnd
  }

  /** Every passage appears in the prompt, labelled with its 1-based position. */
  lemma SystemPromptCites(texts: seq<string>, i: nat)
    requires i < |texts|
    ensures Contains(SystemPrompt(texts), Excerpt(i, texts[i]))
  {
    var xs := seq(|texts|, i requires 0 <= i < |texts| => Excerpt(i, texts[i]));
    JoinContains(xs, "\n\n", i);
    var x := Excerpt(i, texts[i]);
    ContainsPrepend(PromptHead, Excerpts(texts), x);
    ContainsAppend(PromptHead + Excerpts(texts), PromptGuidelines, x);
    ContainsAppend(PromptHead + Excerpts(texts) + PromptGuidelines, Refusal, x);
    ContainsAppend(PromptHead + Excerpts(texts) + PromptGuidelines + Refusal, PromptEnd, x);
  }

  /** The refusal sentence is always in the prompt, verbatim. */
  lemma SystemPromptRefuses(texts: seq<string>)
    ensures Contains(SystemPrompt(texts), Refusal)
  {
    assert OccursAt(Refusal, Refusal, 0);
    ContainsPrepend(PromptHead + Excerpts(texts) + PromptGuidelines, Refusal, Refusal);
    ContainsAppend(PromptHead + Excerpts(texts) + PromptGuidelines + Refusal, PromptEnd, Refusal);
  }

  /** Different positions get different labels. */
  lemma ExcerptLabelsDistinct(i: nat, j: nat)
    requires i != j
    ensures NatToString(i + 1) != NatToString(j + 1)
  {
    DecimalRoundTrip(i + 1);
    DecimalRoundTrip(j + 1);
  }

  /** Each incoming message reduced to `{role, content}`, in order. */
  function History(messages: seq<Message>): (r: seq<ChatMessage>)
    ensures |r| == |messages|
    ensures forall k :: 0 <= k < |messages| ==>
      r[k] == ChatMessage(Said(messages[k].role), messages[k].content)
    decreases |messages|
  {
    if messages == [] then []
    else [ChatMessage(Said(messages[0].role), messages[0].content)] + History(messages[1..])
  }

  /** `[systemMessage, ...userMessages]`. */
  function CompletionRequest(prompt: string, messages: seq<Message>): seq<ChatMessage> {
    [ChatMessage(SystemRole, prompt)] + History(messages)
  }

  // ---------------------------------------------------------------------
  // Streaming
  // ---------------------------------------------------------------------

  /** The `done: false` frames for a prefix of the chunks: one per chunk that carries text. */
  function ProgressFrames(deltas: seq<Option<string>>): seq<Frame>
    decreases |deltas|
  {
    if deltas == [] then []
    else
      var before := deltas[..|deltas| - 1];
      ProgressFrames(before) + (if Carries(deltas[|deltas| - 1]) then [Frame(Streamed(deltas), false)] else [])
  }

  /** The stream the `start` callback produces from the upstream. */
  function Answer(up: Upstream): Response {
    if up.failsAtEnd then EventStream(ProgressFrames(up.deltas), Errored)
    else EventStream(ProgressFrames(up.deltas) + [Frame(Streamed(up.deltas), true)], Closed)
  }

  /**
   * The `for await` loop of `start`: fold each chunk that carries text into
   * the buffer and enqueue a frame with the whole buffer; on normal end
   * enqueue one `done: true` frame; on an upstream error, error the stream.
   */
  method StreamAnswer(up: Upstream) returns (frames: seq<Frame>, end: StreamEnd)
    ensures EventStream(frames, end) == Answer(up)
  {
    var accumulated := "";
    frames := [];
    var i := 0;
    while i < |up.deltas|
      invariant 0 <= i <= |up.deltas|
      invariant accumulated == Streamed(up.deltas[..i])
      invariant frames == ProgressFrames(up.deltas[..i])
    {
      var chunk := up.deltas[i];
      assert up.deltas[..i + 1][..i] == up.deltas[..i];
      if chunk.Some? && chunk.value != "" {
        accumulated := accumulated + chunk.value;
        frames := frames + [Frame(accumulated, false)];
      }
      i := i + 1;
    }
    assert up.deltas[..i] == up.deltas;
    if up.failsAtEnd {
      end := Errored;
    } else {
      frames := frames + [Frame(accumulated, true)];
      end := Closed;
    }
  }

  /** One more delta extends the streamed text, strictly when it carries text. */
  lemma StreamedGrows(deltas: seq<Option<string>>)
    requires deltas != []
    ensures Streamed(deltas[..|deltas| - 1]) <= Streamed(deltas)
    ensures Carries(deltas[|deltas| - 1]) ==> Streamed(deltas[..|deltas| - 1]) < Streamed(deltas)
    ensures !Carries(deltas[|deltas| - 1]) ==> Streamed(deltas[..|deltas| - 1]) == Streamed(deltas)
  {
  }

  lemma {:induction false} ProgressFramesTexts(deltas: seq<Option<string>>)
    ensures |ProgressFrames(deltas)| == CountCarrying(deltas)
    ensures forall k :: 0 <= k < |ProgressFrames(deltas)| ==>
      !ProgressFrames(deltas)[k].done && ProgressFrames(deltas)[k].text != ""
      && ProgressFrames(deltas)[k].text <= Streamed(deltas)
    ensures |ProgressFrames(deltas)| > 0 ==>
      ProgressFrames(deltas)[|ProgressFrames(deltas)| - 1].text == Streamed(deltas)
    decreases |deltas|
  {
    if deltas != [] {
      var before := deltas[..|deltas| - 1];
      ProgressFramesTexts(before);
      StreamedGrows(deltas);
      StreamedEmptyIff(before);
      var pf := ProgressFrames(before);
      var all := ProgressFrames(deltas);
      if Carries(deltas[|deltas| - 1]) {
        assert all == pf + [Frame(Streamed(deltas), false)];
      } else {
        assert all == pf;
      }
    }
  }

  lemma {:induction false} ProgressFramesIncreasing(deltas: seq<Option<string>>)
    ensures forall i, j :: 0 <= i < j < |ProgressFrames(deltas)| ==>
      ProgressFrames(deltas)[i].text < ProgressFrames(deltas)[j].text
    decreases |deltas|
  {
    if deltas != [] {
      var before := deltas[..|deltas| - 1];
      ProgressFramesIncreasing(before);
      ProgressFramesTexts(before);
      StreamedGrows(deltas);
      var pf := ProgressFrames(before);
      var all := ProgressFrames(deltas);
      if Carries(deltas[|deltas| - 1]) {
        assert all == pf + [Frame(Streamed(deltas), false)];
        forall i, j | 0 <= i < j < |all| ensures all[i].text < all[j].text {
          if j == |all| - 1 {
            assert all[i].text == pf[i].text;
            assert pf[i].text <= Streamed(before);
          } else {
            assert all[i] == pf[i] && all[j] == pf[j];
          }
        }
      } else {
        assert all == pf;
      }
    }
  }

  /**
   * The progress frames: none is terminal, none is empty, there is one
   * per chunk carrying text, each text extends the previous one, and the
   * last one holds everything streamed.
   */
  lemma ProgressFramesShape(deltas: seq<Option<string>>)
    ensures |ProgressFrames(deltas)| == CountCarrying(deltas)
    ensures forall k :: 0 <= k < |ProgressFrames(deltas)| ==>
      !ProgressFrames(deltas)[k].done && ProgressFrames(deltas)[k].text != ""
      && ProgressFrames(deltas)[k].text <= Streamed(deltas)
    ensures forall i, j :: 0 <= i < j < |ProgressFrames(deltas)| ==>
      ProgressFrames(deltas)[i].text < ProgressFrames(deltas)[j].text
    ensures |ProgressFrames(deltas)| > 0 ==>
      ProgressFrames(deltas)[|ProgressFrames(deltas)| - 1].text == Streamed(deltas)
  {
    ProgressFramesTexts(deltas);
    ProgressFramesIncreasing(deltas);
  }

  /**
   * The stream's events: their texts only grow; a normal end adds exactly
   * one `done: true` frame, last, holding the whole answer; an upstream
   * error emits no `done: true` frame at all.
   */
  lemma AnswerShape(up: Upstream)
    ensures Answer(up).EventStream?
    ensures forall i, j :: 0 <= i < j < |Answer(up).frames| ==>
      Answer(up).frames[i].text <= Answer(up).frames[j].text
    ensures !up.failsAtEnd ==>
      && Answer(up).end == Closed
      && |Answer(up).frames| == CountCarrying(up.deltas) + 1
      && Answer(up).frames[|Answer(up).frames| - 1] == Frame(Streamed(up.deltas), true)
      && forall k :: 0 <= k < |Answer(up).frames| - 1 ==> !Answer(up).frames[k].done
    ensures up.failsAtEnd ==>
      && Answer(up).end == Errored
      && |Answer(up).frames| == CountCarrying(up.deltas)
      && forall k :: 0 <= k < |Answer(up).frames| ==> !Answer(up).frames[k].done
  {
    ProgressFramesShape(up.deltas);
    var pf := ProgressFrames(up.deltas);
    if !up.failsAtEnd {
      var all := Answer(up).frames;
      assert all == pf + [Frame(Streamed(up.deltas), true)];
      forall i, j | 0 <= i < j < |all| ensures all[i].text <= all[j].text {
        if j == |all| - 1 {
          assert all[i].text <= Streamed(up.deltas);
        } else {
          assert all[i] == pf[i] && all[j] == pf[j];
        }
      }
    } else {
      assert forall i, j :: 0 <= i < j < |pf| ==> pf[i].text < pf[j].text;
    }
  }

  /** `"data: " + JSON.stringify({text, done}) + "\n\n"`. */
  function EncodeFrame(f: Frame): string {
    "data: " + Stringify(TextPayload(f.text, f.done)) + "\n\n"
  }

  // ---------------------------------------------------------------------
  // Error mapping and the handler
  // ---------------------------------------------------------------------

  /** The inner `catch`: a 429 from any pipeline step becomes 429, everything else 500. */
  function PipelineError(e: ErrorInfo): (r: Response)
    ensures r.JsonError?
    ensures r.status == 429 <==> e.status == Some(429)
    ensures r.status == 429 ==> r.error == RateLimitMessage
    ensures r.status != 429 ==> r.status == 500 && r.error == EmbeddingErrorMessage
  {
    if e.status == Some(429) then JsonError(429, RateLimitMessage) else JsonError(500, EmbeddingErrorMessage)
  }

  /** The outer `catch`, reached when the request body cannot be read. */
  function RequestError(e: ErrorInfo): (r: Response)
    ensures r.JsonError?
    ensures r.status == 429 <==> e.status == Some(429)
    ensures r.status == 429 ==> r.error == RateLimitMessage
    ensures r.status != 429 ==> r.status == 500 && r.error == InternalErrorMessage
  {
    if e.status == Some(429) then JsonError(429, RateLimitMessage) else JsonError(500, InternalErrorMessage)
  }

  /** What `POST` answers, as a function of what its collaborators return. */
  function Respond(
    body: Body,
    embed: Option<string> -> Result<Embedding, ErrorInfo>,
    search: Embedding -> Result<seq<Passage>, ErrorInfo>,
    collection: Result<seq<Passage>, ErrorInfo>,
    complete: seq<ChatMessage> -> Result<Upstream, ErrorInfo>
  ): Response
  {
    match body
    case Unreadable(e) => RequestError(e)
    case Parsed(messages) =>
      match embed(Query(messages))
      case Failure(e) => PipelineError(e)
      case Success(vector) =>
        match search(vector)
        case Failure(e) => PipelineError(e)
        case Success(hits) =>
          match SelectDocuments(hits, collection)
          case Failure(e) => PipelineError(e)
          case Success(docs) =>
            match complete(CompletionRequest(SystemPrompt(Texts(docs)), messages))
            case Failure(e) => PipelineError(e)
            case Success(up) => Answer(up)
  }

  /** The handler, step by step as the source runs it. */
  method Post(
    body: Body,
    embed: Option<string> -> Result<Embedding, ErrorInfo>,
    search: Embedding -> Result<seq<Passage>, ErrorInfo>,
    collection: Result<seq<Passage>, ErrorInfo>,
    complete: seq<ChatMessage> -> Result<Upstream, ErrorInfo>
  ) returns (resp: Response)
    ensures resp == Respond(body, embed, search, collection, complete)
  {
    if body.Unreadable? {
      return RequestError(body.error);
    }
    var messages := body.messages;
    var lastMessage := Query(messages);
    var embedding := embed(lastMessage);
    if embedding.Failure? {
      return PipelineError(embedding.error);
    }
    var found := search(embedding.value);
    if found.Failure? {
      return PipelineError(found.error);
    }
    var documents := found.value;
    if |documents| == 0 {
      if collection.Failure? {
        return PipelineError(collection.error);
      }
      var textResults := FallbackMatches(collection.value);
      if |textResults| > 0 {
        documents := documents + textResults;
      } else {
        return PipelineError(NoDocuments);
      }
    }
    var prompt := SystemPrompt(Texts(documents));
    var completion := complete(CompletionRequest(prompt, messages));
    if completion.Failure? {
      return PipelineError(completion.error);
    }
    var frames, end := StreamAnswer(completion.value);
    resp := EventStream(frames, end);
  }

  // ---------------------------------------------------------------------
  // Properties of the handler
  // ---------------------------------------------------------------------

  /** Only the last message's content reaches the embedder. */
  lemma OnlyLastMessageIsEmbedded(
    messages: seq<Message>,
    embed1: Option<string> -> Result<Embedding, ErrorInfo>,
    embed2: Option<string> -> Result<Embedding, ErrorInfo>,
    search: Embedding -> Result<seq<Passage>, ErrorInfo>,
    collection: Result<seq<Passage>, ErrorInfo>,
    complete: seq<ChatMessage> -> Result<Upstream, ErrorInfo>
  )
    requires embed1(Query(messages)) == embed2(Query(messages))
    ensures Respond(Parsed(messages), embed1, search, collection, complete)
         == Respond(Parsed(messages), embed2, search, collection, complete)
  {
  }

  /** When the vector search finds passages the collection is never consulted. */
  lemma FallbackOnlyWhenVectorEmpty(
    messages: seq<Message>,
    embed: Option<string> -> Result<Embedding, ErrorInfo>,
    search: Embedding -> Result<seq<Passage>, ErrorInfo>,
    collection1: Result<seq<Passage>, ErrorInfo>,
    collection2: Result<seq<Passage>, ErrorInfo>,
    complete: seq<ChatMessage> -> Result<Upstream, ErrorInfo>
  )
    requires embed(Query(messages)).Success?
    requires search(embed(Query(messages)).value).Success?
    requires |search(embed(Query(messages)).value).value| > 0
    ensures Respond(Parsed(messages), embed, search, collection1, complete)
         == Respond(Parsed(messages), embed, search, collection2, complete)
  {
  }

  /** A rate-limited embedding call answers 429 whatever the store and the model would do. */
  lemma RateLimitedEmbedding(
    messages: seq<Message>,
    embed: Option<string> -> Result<Embedding, ErrorInfo>,
    search: Embedding -> Result<seq<Passage>, ErrorInfo>,
    collection: Result<seq<Passage>, ErrorInfo>,
    complete: seq<ChatMessage> -> Result<Upstream, ErrorInfo>
  )
    requires embed(Query(messages)) == Failure(ErrorInfo(Some(429)))
    ensures Respond(Parsed(messages), embed, search, collection, complete)
         == JsonError(429, RateLimitMessage)
  {
  }

  /** No vector hit and no fallback match: 500 "Error creating embeddings", and no completion. */
  lemma NothingFound(
    messages: seq<Message>,
    embed: Option<string> -> Result<Embedding, ErrorInfo>,
    search: Embedding -> Result<seq<Passage>, ErrorInfo>,
    collection: seq<Passage>,
    complete: seq<ChatMessage> -> Result<Upstream, ErrorInfo>
  )
    requires embed(Query(messages)).Success?
    requires search(embed(Query(messages)).value) == Success([])
    requires forall p :: p in collection ==> !MentionsEldersQuorum(p.text)
    ensures Respond(Parsed(messages), embed, search, Success(collection), complete)
         == JsonError(500, EmbeddingErrorMessage)
  {
  }

  /**
   * When every step succeeds, the model is asked with the system prompt
   * built from the selected passages followed by the whole conversation,
   * and the response is the stream of its answer.
   */
  lemma StreamedWhenAllSucceed(
    messages: seq<Message>,
    embed: Option<string> -> Result<Embedding, ErrorInfo>,
    search: Embedding -> Result<seq<Passage>, ErrorInfo>,
    collection: Result<seq<Passage>, ErrorInfo>,
    complete: seq<ChatMessage> -> Result<Upstream, ErrorInfo>
  )
    requires embed(Query(messages)).Success?
    requires search(embed(Query(messages)).value).Success?
    requires SelectDocuments(search(embed(Query(messages)).value).value, collection).Success?
    ensures var docs := SelectDocuments(search(embed(Query(messages)).value).value, collection).value;
      var request := CompletionRequest(SystemPrompt(Texts(docs)), messages);
      && |request| == |messages| + 1
      && request[0] == ChatMessage(SystemRole, SystemPrompt(Texts(docs)))
      && (forall k :: 0 <= k < |messages| ==> request[k + 1] == ChatMessage(Said(messages[k].role), messages[k].content))
      && Respond(Parsed(messages), embed, search, collection, complete)
         == (match complete(request)
             case Success(up) => Answer(up)
             case Failure(e) => PipelineError(e))
  {
    var docs := SelectDocuments(search(embed(Query(messages)).value).value, collection).value;
    var request := CompletionRequest(SystemPrompt(Texts(docs)), messages);
    assert request[1..] == History(messages);
  }
}

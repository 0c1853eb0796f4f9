# Elders Quorum handbook assistant: the verified kernel

The system is a retrieval-augmented chat assistant. A browser page sends the
conversation to a server endpoint. The endpoint embeds the last message and
looks up handbook passages. It builds a numbered system prompt and streams
the model's answer back as `data: {...}` event-stream frames. The page reads
those frames and fills in an assistant message as they arrive.

This project models the sequential logic inside that plumbing and proves
what it promises:

- `ChatRoute` (`route.dfy`) is the served endpoint, `app/api/chat/route.ts`. It models:
  - the query, which is the last message's content;
  - the retrieval decision: vector hits as they come, otherwise at most five
    passages matching `/elders.*quorum|quorum.*elders/i`, otherwise an error;
  - the numbered prompt;
  - the streaming loop, which sends cumulative text;
  - the mapping of errors to 429 and 500.

  The embedder, the vector search, the collection and the language model are
  parameters. The handler is a spec function `Respond` and a method `Post`
  that follows the source step by step. The streaming loop is the method
  `StreamAnswer`, proved equal to the fold `Answer`.
- `OldChatRoute` (`oldroute.dfy`) is `app/api/chat/oldroute.ts`. The framework
  never serves it because of its file name. Its loop sends one `{content}`
  frame per chunk with only that chunk's text. It sends no terminal frame, and
  it swallows upstream errors before closing normally.
- `ChatPage` (`page.dfy`) is `app/page.tsx`. The class `Home` holds the
  page's `messages` and `errorMessage` state. Its methods `HandleSubmit`,
  `HandlePrompt` and `ReadBody` update that state step by step. Each is proved
  equal to a spec function: `SubmitOutcome`, `PromptOutcome` and `ApplyReads`.
- `TagStrip` (`tagstrip.dfy`) is the tag stripper `replace(/<[^>]*>?/gm, "")`
  of `scripts/oldloadDB.ts`.
- `EndToEnd` (`endtoend.dfy`) connects the server's frames to the page's
  reader. It holds the round trip and the ways it breaks.
- Supporting modules:
  - `ChatTypes` (`types.dfy`): the `Message` record of `interface/type.ts`
    and the model of the upstream chunk stream.
  - `Strings` (`strings.dfy`): JavaScript's `split("\n")`, `join`,
    `startsWith` and decimal rendering.
  - `Json` (`json.dfy`): `JSON.stringify` of strings, following the escaping
    of section 25.5.2.3 of ECMA-262 (QuoteJSONString), and of the three
    payload objects the system writes. It also models `JSON.parse` of any text
    into a JSON value (RFC 8259: whitespace, nesting, numbers, literals, and
    repeated keys where the last one wins). It models the property reads and
    truthiness tests the page applies to the result, with a proved round trip.
  - `Wrappers` (`wrappers.dfy`): `Option` and `Result`.

## Model

| member | source | states |
|---|---|---|
| ChatTypes.StreamedEmptyIff | app/api/chat/route.ts:173-177 | the accumulated buffer is empty exactly when no chunk carried non-empty content |
| Strings.Split | app/page.tsx:145 | `split("\n")` yields at least one piece and no piece contains a newline |
| Strings.JoinSplit | app/page.tsx:145 | joining the pieces with newlines gives back the chunk, so no character is lost or moved |
| Strings.SplitLine | app/page.tsx:145 | a line followed by a newline splits off as the first piece, and the rest splits independently |
| Strings.JoinContains | app/api/chat/route.ts:137 | every element of a joined list occurs in the joined string |
| Strings.NatToString | app/api/chat/route.ts:137 | the rendered number is non-empty and made of decimal digits |
| Strings.DecimalRoundTrip | app/api/chat/route.ts:137 | reading the rendered digits back gives the number, so rendering is injective |
| Json.Escape | app/api/chat/route.ts:185 | the escaped body of a JSON string holds no control character |
| Json.QuoteRoundTrip | app/api/chat/route.ts:185 | parsing a quoted string returns the original string and leaves what follows it untouched |
| Json.Quote | app/api/chat/route.ts:185 | defines `JSON.stringify` of a string: the escaped body between double quotes |
| Json.Stringify | app/api/chat/route.ts:184-186 | defines `JSON.stringify` of the `{text, done}`, `{content}` and `{error}` objects, keys in insertion order |
| Json.Parse | app/page.tsx:150 | defines `JSON.parse`: one value with optional surrounding whitespace, `None` for a syntax error |
| Json.Lookup | app/page.tsx:151 | a key is found exactly when some member carries it, and the value found is that of the last member carrying it |
| Json.ParseStringify | app/page.tsx:150 | `JSON.parse` of each serialised payload gives the object with the same members in the same order |
| Json.StringifyProperties | app/page.tsx:150-151 | the parsed payload has a string `text` only for `{text, done}`, and a string `error` only for `{error}` |
| Json.ParseEmptyObject | app/page.tsx:118 | `{}` parses to the empty object |
| Json.ParseErrorNull | app/page.tsx:118 | `{"error":null}` parses to an object whose `error` is `null` |
| Json.ParseNull | app/page.tsx:118 | `null` parses to the null value |
| Json.StringifyOneLine | app/api/chat/route.ts:184-186 | a serialised payload has only printable characters and no newline, so each frame is one line |
| ChatRoute.SearchSecondSound | app/api/chat/route.ts:110 | when the scan finds the second word, it occurs at some offset with no newline before it |
| ChatRoute.SearchSecondComplete | app/api/chat/route.ts:110 | any occurrence of the second word with no newline before it is found by the scan |
| ChatRoute.SearchFirstCorrect | app/api/chat/route.ts:110 | the scan accepts a text exactly when `w1.*w2` matches it case-insensitively, `.` not matching a newline |
| ChatRoute.MentionsEldersQuorumCorrect | app/api/chat/route.ts:110 | the fallback filter holds exactly when `elders.*quorum` or `quorum.*elders` matches |
| ChatRoute.Query | app/api/chat/route.ts:51 | defines the query: the content of the last message, absent for an empty list |
| ChatRoute.Matching | app/api/chat/route.ts:108-112 | the matching passages keep collection order; a passage is among them exactly when it is in the collection and matches, and as many times as it occurs there |
| ChatRoute.FallbackMatches | app/api/chat/route.ts:108-112 | defines `.find({text: {$regex}}).limit(5)`: the first five matching passages |
| ChatRoute.SelectDocuments | app/api/chat/route.ts:106-120 | vector hits are used unchanged; with none, the result is the first min(5, number of matches) matching passages in collection order; with no match it fails with a status-less error; a failing collection read propagates its error |
| ChatRoute.FallbackFacts | app/api/chat/route.ts:108-113 | the fallback list is a prefix of the matching passages, a subsequence of the collection, holds min(5, number of matches) passages, and is empty exactly when no passage matches |
| ChatRoute.Excerpt | app/api/chat/route.ts:137 | defines one numbered excerpt `[i+1] text` |
| ChatRoute.Excerpts | app/api/chat/route.ts:137 | defines the excerpts joined by blank lines |
| ChatRoute.SystemPrompt | app/api/chat/route.ts:132-150 | defines the system message: the fixed head, the excerpts, the guidelines and the refusal sentence |
| ChatRoute.Texts | app/api/chat/route.ts:127 | `docMap` holds each document's text, same length and order |
| ChatRoute.SystemPromptCites | app/api/chat/route.ts:137 | the system prompt contains `[i+1] text` for every passage i |
| ChatRoute.SystemPromptRefuses | app/api/chat/route.ts:149 | the system prompt always contains the fixed refusal sentence |
| ChatRoute.ExcerptLabelsDistinct | app/api/chat/route.ts:137 | different passages get different labels |
| ChatRoute.History | app/api/chat/route.ts:156-159 | each incoming message is reduced to its role and content, in original order |
| ChatRoute.CompletionRequest | app/api/chat/route.ts:161-167 | defines the completion request: the system message, then the reduced history |
| ChatRoute.ProgressFrames | app/api/chat/route.ts:173-188 | defines one `done:false` frame of the accumulated text per chunk with content |
| ChatRoute.Answer | app/api/chat/route.ts:170-203 | defines the stream: the progress frames, then a `done:true` frame on a normal end or an error on an upstream failure |
| ChatRoute.EncodeFrame | app/api/chat/route.ts:184-186 | defines a frame's bytes: `data: `, the serialised `{text, done}` object and two newlines |
| ChatRoute.Respond | app/api/chat/route.ts:47-230 | defines the handler's response for a request body and the external services' answers |
| ChatRoute.StreamAnswer | app/api/chat/route.ts:170-203 | the accumulating loop emits exactly the frames and the ending of the fold `Answer` |
| ChatRoute.ProgressFramesTexts | app/api/chat/route.ts:173-188 | one `done:false` frame per chunk with content; each text is non-empty and a prefix of the final buffer, and the last equals it |
| ChatRoute.ProgressFramesIncreasing | app/api/chat/route.ts:173-188 | successive frame texts are strict prefix-extensions of each other |
| ChatRoute.ProgressFramesShape | app/api/chat/route.ts:173-188 | count, non-emptiness, prefix order and final text of the progress frames, together |
| ChatRoute.AnswerShape | app/api/chat/route.ts:190-201 | texts never shrink; a normal end adds exactly one `done:true` frame, last, holding the whole buffer; an upstream error errors the stream and emits no `done:true` frame |
| ChatRoute.PipelineError | app/api/chat/route.ts:214-221 | an error inside the pipeline answers 429 with the rate-limit text exactly when its status is 429, otherwise 500 "Error creating embeddings" |
| ChatRoute.RequestError | app/api/chat/route.ts:223-228 | an outer error answers 429 with the rate-limit text exactly when its status is 429, otherwise 500 "Internal Server Error" |
| ChatRoute.Post | app/api/chat/route.ts:47-230 | the handler run step by step, with the fallback appended to the empty hit list, answers what `Respond` specifies |
| ChatRoute.OnlyLastMessageIsEmbedded | app/api/chat/route.ts:51-63 | two embedders that agree on the last message's content give the same response |
| ChatRoute.FallbackOnlyWhenVectorEmpty | app/api/chat/route.ts:106 | when the vector search finds passages, the collection does not affect the response |
| ChatRoute.RateLimitedEmbedding | app/api/chat/route.ts:214-219 | a 429 from the embedder answers 429 with the rate-limit text, whatever the store and model would do |
| ChatRoute.NothingFound | app/api/chat/route.ts:114-121 | no vector hit and no fallback match answer 500 "Error creating embeddings" |
| ChatRoute.StreamedWhenAllSucceed | app/api/chat/route.ts:156-167 | the completion request is the system prompt followed by the reduced history, and the response is the model's stream or the mapped error |
| OldChatRoute.JsonStringArray | app/api/chat/oldroute.ts:54-55 | defines `JSON.stringify` of the list of passage texts |
| OldChatRoute.Template | app/api/chat/oldroute.ts:57-60 | defines the system template around the passages and the query |
| OldChatRoute.ContentFrames | app/api/chat/oldroute.ts:73-81 | defines one chunk's text per chunk with content |
| OldChatRoute.EncodeContent | app/api/chat/oldroute.ts:77 | defines a frame's bytes: `data: `, the serialised `{content}` object and two newlines |
| OldChatRoute.Respond | app/api/chat/oldroute.ts:23-118 | defines the earlier handler's response |
| OldChatRoute.TemplateCarries | app/api/chat/oldroute.ts:54-60 | the template contains the JSON array of passage texts and the query, rendered `undefined` when absent |
| OldChatRoute.Pull | app/api/chat/oldroute.ts:70-87 | the `pull` loop enqueues exactly the per-chunk contents of the fold `ContentFrames` |
| OldChatRoute.ContentFramesConcat | app/api/chat/oldroute.ts:73-81 | one frame per chunk with content, none empty, no terminal frame, and their concatenation is the whole completion |
| OldChatRoute.PipelineError | app/api/chat/oldroute.ts:97-107 | a pipeline error answers 429 with the usage-limit text exactly when its status is 429, otherwise 500 "Error creating embeddings" |
| OldChatRoute.RequestError | app/api/chat/oldroute.ts:109-117 | an outer error answers 429 "Rate limit exceeded..." exactly when its status is 429, otherwise 500 "Internal Server Error" |
| OldChatRoute.Post | app/api/chat/oldroute.ts:23-118 | the handler run step by step answers what `Respond` specifies |
| OldChatRoute.ErrorsSwallowed | app/api/chat/oldroute.ts:82-86 | an upstream failing after its chunks yields the same normally closed stream as one that does not fail |
| ChatPage.TextOf | app/page.tsx:150-151 | a parsed line yields text exactly when its `text` is a non-empty string, and then that string |
| ChatPage.Accepted | app/page.tsx:148-159 | defines the text one line contributes: a `data: ` line whose rest parses and carries a non-empty string `text` |
| ChatPage.LastAccepted | app/page.tsx:147-163 | defines the text of the last accepted line |
| ChatPage.ApplyLines | app/page.tsx:147-164 | defines the inner loop over one chunk's lines |
| ChatPage.ReadLines | app/page.tsx:140-145 | defines the lines of each read, split separately |
| ChatPage.ApplyReads | app/page.tsx:140-167 | defines the outer read loop |
| ChatPage.ErrorField | app/page.tsx:118-120 | the 429 body is unreadable exactly when it is absent, fails, is not JSON or is `null`; otherwise the string `error` is read, or none when `error` is missing or not a string |
| ChatPage.RateLimitText | app/page.tsx:120 | defines `errorData.error \|\| "An unexpected error occurred"` |
| ChatPage.Streaming | app/page.tsx:126-167 | defines the page after a readable body: the placeholder, then every read applied |
| ChatPage.SubmitOutcome | app/page.tsx:94-175 | defines what `handleSubmit` leaves on the page |
| ChatPage.PromptOutcome | app/page.tsx:20-85 | defines what `handlePrompt` leaves on the page |
| ChatPage.ReplaceContent | app/page.tsx:152-158 | length, order, ids and roles are kept; messages with other ids are unchanged; the targeted message gets the new content |
| ChatPage.Home.constructor | app/page.tsx:11-14 | the page starts with no messages and no error |
| ChatPage.Home.ReadBody | app/page.tsx:140-167 | the read loop leaves the messages equal to `ApplyReads` of the chunks, and the error unchanged |
| ChatPage.Home.ReadChunk | app/page.tsx:144-164 | the line loop over one read leaves the messages equal to `ApplyLines` of its lines, and the error unchanged |
| ChatPage.Home.HandleSubmit | app/page.tsx:94-175 | sends the previous list plus the user message, and leaves messages and error as `SubmitOutcome` specifies |
| ChatPage.Home.HandlePrompt | app/page.tsx:20-85 | sends the previous list plus the prompt message, and leaves messages and error as `PromptOutcome` specifies |
| ChatPage.LastAcceptedAppend | app/page.tsx:147-163 | over consecutive lines the last accepted text is the later one when there is one |
| ChatPage.ApplyLinesEffect | app/page.tsx:147-163 | processing lines keeps the list's length, ids and roles, leaves other ids alone, and gives the target the last accepted text, or keeps it |
| ChatPage.ApplyLinesAppend | app/page.tsx:147-163 | processing two runs of lines is processing the first run and then the second |
| ChatPage.ApplyReadsLines | app/page.tsx:140-147 | processing chunk by chunk equals processing all their lines in order |
| ChatPage.StreamingEffect | app/page.tsx:133-164 | a usable body appends one assistant placeholder after the kept list, holding the last accepted text or empty; the error is set exactly when the read fails |
| ChatPage.SubmitRateLimited | app/page.tsx:116-122 | a 429 with a readable body shows its `error` string, or the fallback text when that is missing, empty or not a string, and adds no placeholder |
| ChatPage.SubmitRateLimitFallback | app/page.tsx:118-121 | a 429 whose JSON is not `null` and holds no non-empty `error` string shows "An unexpected error occurred" |
| ChatPage.SubmitRateLimitExamples | app/page.tsx:118-121 | 429 bodies `{}` and `{"error":null}` show the fallback text; the body `null` shows the generic text |
| ChatPage.SubmitFailsGenerically | app/page.tsx:123-129 | a failed fetch, another non-ok status, a 429 body that is absent, unreadable, not JSON or `null`, or a missing body shows the generic text and adds no placeholder |
| ChatPage.SubmitStreams | app/page.tsx:126-164 | an ok response adds the user message and exactly one placeholder, which ends with the last accepted text |
| ChatPage.NoDataLine | app/page.tsx:60-61 | a one-line body not starting with `data: ` accepts nothing |
| ChatPage.PromptIgnoresErrorStatus | app/page.tsx:32-78 | an error response to a suggested prompt leaves an empty assistant placeholder and no error message |
| TagStrip.StripTags | scripts/oldloadDB.ts:90 | defines `replace(/<[^>]*>?/gm, "")`: each `<` and what follows up to and including the next `>` is removed |
| TagStrip.AfterTag | scripts/oldloadDB.ts:90 | skipping a tag never lengthens the text |
| TagStrip.NoOpenBracketLeft | scripts/oldloadDB.ts:90 | the output contains no `<` |
| TagStrip.PlainPrefixKept | scripts/oldloadDB.ts:90 | a prefix without `<` is kept as it is |
| TagStrip.NoTagUnchanged | scripts/oldloadDB.ts:90 | a string without `<` is returned unchanged |
| TagStrip.Idempotent | scripts/oldloadDB.ts:90 | stripping twice equals stripping once |
| TagStrip.RemovesTag | scripts/oldloadDB.ts:90 | a `<` and everything up to the next `>` are removed |
| TagStrip.RemovesUnterminated | scripts/oldloadDB.ts:90 | an unterminated `<` removes the rest of the string |
| TagStrip.KeepsOrder | scripts/oldloadDB.ts:90 | the output is a subsequence of the input and no longer than it |
| EndToEnd.EncodedFramesShown | app/api/chat/route.ts:184-186 | the lines of a read of whole frames accept the last non-empty frame text |
| EndToEnd.WireShown | app/page.tsx:140-164 | reads carrying whole frames, however grouped, accept the last non-empty text of all the frames |
| EndToEnd.AnswerShown | app/api/chat/route.ts:173-196 | the last non-empty text among the server's frames is the whole streamed answer, when that is non-empty |
| EndToEnd.SubmitShowsAnswer | app/page.tsx:94-175 | after a streamed answer the placeholder holds exactly what the model streamed, and the error shows exactly when the upstream failed |
| EndToEnd.ErrorBodyRead | app/page.tsx:118 | the page reads back the `error` field of the server's JSON error body |
| EndToEnd.SubmitShowsRateLimit | app/page.tsx:116-122 | the server's 429 shows "Rate limit exceeded. Please try again later." and adds no placeholder |
| EndToEnd.SubmitShows429 | app/page.tsx:116-121 | a 429 whose `{error}` body carries a non-empty message shows exactly that message |
| EndToEnd.SubmitHidesServerError | app/page.tsx:123 | the server's 500 shows the page's generic text, not the server's message |
| EndToEnd.TruncatedTextKey | app/page.tsx:150 | every proper start of `{"text":` is a syntax error for `JSON.parse` |
| EndToEnd.SplitFrameDropped | app/page.tsx:144-147 | a frame cut by a read boundary inside its `data: {"text":` start changes no message |
| EndToEnd.SplitAfterLineKept | app/page.tsx:144-147 | a read boundary at or after the end of a frame's line keeps the frame: its text is shown when non-empty |
| EndToEnd.OldFramesIgnored | app/page.tsx:150-151 | the earlier endpoint's `{content}` frames change no message |

## Left out

- Database access is not modelled: `connectDB`, the debug `findOne`, the `$search` and `$vectorSearch` aggregations, and `.find().limit()`. The vector search is an opaque function from an embedding to a result. The fallback query is the collection given as a sequence, or an error.
- The Gemini embedding and chat-completion calls are function parameters. An embedding is an opaque sequence of reals. The completion is a sequence of optional delta strings plus a flag saying whether it fails after them.
- Floating-point values are opaque: embedding vectors, `searchScore` and `temperature`.
- Logging is not modelled.
- `ChatRoute.MentionsEldersQuorumCorrect`: case folding covers ASCII letters only, and MongoDB's regex engine is taken to treat `.` as any character except a newline.
- `Json.Parse`: a number is kept as its literal text, and only its truthiness is derived from it (zero when every digit before the exponent is 0). A literal so small that it rounds to zero (such as `1e-400`) is not modelled.
- `ChatPage.TextOf`: a truthy `text` that is not a string (a number, `true`, an array or an object) replaces the content with that value in the source. `Message.content` is declared a string (`interface/type.ts:13-17`), so the model skips such a line instead.
- `ChatPage.ErrorField`: a truthy `error` that is not a string becomes the error message in the source. The state is declared `string | null` (`app/page.tsx:14`), so the model shows the fallback text instead.
- Lone surrogate code units are not modelled. `JSON.stringify` escapes them. The parser also rejects `\u` escapes in the surrogate range.
- `TextEncoder` and `TextDecoder` are left out: chunks are strings. A multi-byte character split across reads is not modelled.
- Concurrency is modelled as sequential processing of a finite sequence: `ReadableStream` backpressure, the `async` ordering of `setMessages` updates, and `for await`.
- React rendering is left out: `isLoading`, clearing `input`, `handleInputChange`, scrolling and the component files.
- `scripts/loadDB.ts` is not part of this model. Neither is the rest of `scripts/oldloadDB.ts`: scraping, collection creation and inserts are I/O.
- `EndToEnd.SubmitShowsAnswer`: it requires that every frame reaches the page. Under the WHATWG Streams Standard, `controller.error` (ReadableStreamDefaultControllerError, called at `app/api/chat/route.ts:199`) resets the queue. Frames enqueued but not yet read are then discarded. After an upstream failure the page may therefore see only some of the progress frames, and the lemma does not cover that delivery.
- `EndToEnd.SplitFrameDropped`: it covers only read boundaries inside the 14-character `data: {"text":` start. A boundary inside the rest of the line is not covered by any lemma. A boundary at or after the end of the line keeps the frame (`EndToEnd.SplitAfterLineKept`).
- The route.ts stream is not modelled after `controller.error`, including the call to `close()` on an errored stream in the `finally`. The page sees the read fail, and that is all the model records.
- Descriptions of this system say passage URLs appear in the prompt. `app/api/chat/route.ts:127-137` uses only the passage texts, and the model follows the code.
- The served route.ts does not swallow upstream errors; it errors the stream (`app/api/chat/route.ts:197-201`). Only oldroute.ts swallows them, and each file is modelled as written.

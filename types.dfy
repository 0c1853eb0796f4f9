/**
 * The shared vocabulary of the chat kernel: the `Message` record of
 * interface/type.ts, the part of a thrown error the handlers inspect, and
 * the streamed completion as the handlers see it.
 */
module ChatTypes {
  import opened Wrappers

  datatype Role = User | Assistant

  /** One entry of the conversation (`interface Message`). */
  datatype Message = Message(id: string, role: Role, content: string)

  /**
   * A thrown error, reduced to the one thing the handlers look at:
   * its `status` field, which may be absent.
   */
  datatype ErrorInfo = ErrorInfo(status: Option<int>)

  /**
   * The streamed chat completion: for each chunk, `choices[0]?.delta?.content`
   * (None when the first choice, its delta or its content is missing), and
   * whether the iteration throws after the last chunk instead of ending
   * normally. A chunk without a `choices` array makes that expression throw;
   * it is modelled as the iteration throwing at that point.
   */
  datatype Upstream = Upstream(deltas: seq<Option<string>>, failsAtEnd: bool)

  /** The text a chunk contributes; absent content contributes nothing. */
  function DeltaText(d: Option<string>): string {
    if d.Some? then d.value else ""
  }

  /** A chunk passes the handlers' truthiness test iff its content is a non-empty string. */
  predicate Carries(d: Option<string>) {
    DeltaText(d) != ""
  }

  /** Everything the upstream has streamed, in order. */
  function Streamed(deltas: seq<Option<string>>): string
    decreases |deltas|
  {
    if deltas == [] then ""
    else Streamed(deltas[..|deltas| - 1]) + DeltaText(deltas[|deltas| - 1])
  }

  /** How many chunks pass the truthiness test. */
  function CountCarrying(deltas: seq<Option<string>>): nat
    decreases |deltas|
  {
    if deltas == [] then 0
    else CountCarrying(deltas[..|deltas| - 1]) + (if Carries(deltas[|deltas| - 1]) then 1 else 0)
  }

  /** Nothing was streamed exactly when no chunk carried text. */
  lemma {:induction false} StreamedEmptyIff(deltas: seq<Option<string>>)
    ensures Streamed(deltas) == "" <==> CountCarrying(deltas) == 0
    decreases |deltas|
  {
    if deltas != [] {
      StreamedEmptyIff(deltas[..|deltas| - 1]);
    }
  }
}

/** A session without incident: what the distributor says, and what it hears when every message arrives once and in order
    and the target finds nothing to refuse. */
module SessionScript {
  import opened Prelude
  import opened AgentState
  import opened Messages
  import opened Ledger

  // ---- What was said ----

  /** The messages of a history. */
  function Said(log: seq<Entry>): seq<Message> {
    if log == [] then []
    else Said(log[..|log| - 1]) + if log[|log| - 1].Sent? then [log[|log| - 1].message] else []
  }

  lemma SaidSnoc(log: seq<Entry>, e: Entry)
    ensures Said(log + [e]) == Said(log) + if e.Sent? then [e.message] else []
  {
    Snoc(log, e);
  }

  /** The next `n` messages get through. */
  predicate Flows(sends: seq<bool>, n: nat) {
    n <= |sends| && forall i :: 0 <= i < n ==> sends[i]
  }

  lemma FlowsOn(sends: seq<bool>, n: nat)
    requires Flows(sends, n) && n > 0
    ensures sends != [] && sends[0] && Flows(sends[1..], n - 1)
  {
  }

  // ---- The script ----

  /** The delivery a session works at, and the authority of the session. */
  datatype Goal = Goal(id: Id, generation: u64, digest: Digest, sizeBytes: u64, windowed: bool, term: u64, incarnation: Bytes)

  function GoalOf(r: DeliveryRecord, term: u64, incarnation: Bytes): Goal {
    Goal(r.id, r.generation, r.digest, r.sizeBytes, r.effectiveGuarantee == PrepareCommitAbort, term, incarnation)
  }

  /** The acknowledgement is of this very delivery, under the session's authority. */
  predicate Acknowledges(a: DeliveryAckMessage, g: Goal) {
    && a.deployment == g.id && a.generation == g.generation && a.digest == g.digest
    && a.term == g.term && a.incarnation == g.incarnation
  }

  predicate Confirms(reply: Reply, g: Goal) {
    reply.ApplyCommitAck? && reply.isCommitted && reply.committedGeneration == g.generation && reply.committedDigest == g.digest
  }

  predicate AckHeard(replies: seq<Reply>, g: Goal) {
    replies != [] && replies[0].DeliveryAck? && Acknowledges(replies[0].ack, g)
  }

  predicate CommitHeard(replies: seq<Reply>, g: Goal) {
    replies != [] && Confirms(replies[0], g) && AckHeard(replies[1..], g)
  }

  function CommitSaid(g: Goal): seq<Message> {
    [ApplyCommit(g.id, g.generation, g.digest)]
  }

  predicate WindowHeard(replies: seq<Reply>, g: Goal) {
    if g.windowed then replies != [] && replies[0].ApplyPrepareAck? && replies[0].prepared && CommitHeard(replies[1..], g)
    else CommitHeard(replies, g)
  }

  function WindowSaid(g: Goal): seq<Message> {
    (if g.windowed then [ApplyPrepare(g.id, g.generation, g.digest)] else []) + CommitSaid(g)
  }

  predicate StageHeard(replies: seq<Reply>, g: Goal) {
    replies != [] && replies[0].StageAck? && replies[0].staged && WindowHeard(replies[1..], g)
  }

  function StageSaid(g: Goal): seq<Message> {
    [Stage(g.id, g.generation, g.digest)] + WindowSaid(g)
  }

  predicate VerdictHeard(replies: seq<Reply>, g: Goal) {
    replies != [] && replies[0].TransferResult? && replies[0].verified && StageHeard(replies[1..], g)
  }

  function VerdictSaid(g: Goal): seq<Message> {
    [TransferComplete(g.id, g.digest, g.sizeBytes)] + StageSaid(g)
  }

  /** Where the next chunk starts. */
  function NextOffset(offset: u64, chunk: nat, size: u64): u64 {
    if offset + chunk < size then offset + chunk else size
  }

  /** The target's count leads: each answer moves the sender to another offset, forward or back, until everything is there. */
  predicate ChunksHeard(replies: seq<Reply>, g: Goal, stream: u64, chunk: nat, offset: u64)
    decreases |replies|
  {
    if offset >= g.sizeBytes || chunk == 0 then VerdictHeard(replies, g)
    else
      && replies != [] && replies[0].ChunkAck? && replies[0].stream == stream
      && (replies[0].code == Success || replies[0].code == ReorderedFrame) && replies[0].bytesReceived != offset
      && ChunksHeard(replies[1..], g, stream, chunk, replies[0].bytesReceived)
  }

  /** The chunks that go with these answers, each from where the target wants to go on, and then the rest of the conversation. */
  function ChunksFollow(g: Goal, stream: u64, content: Bytes, chunk: nat, offset: u64, replies: seq<Reply>): seq<Message>
    requires |content| == g.sizeBytes
    decreases |replies|
  {
    if offset >= g.sizeBytes || chunk == 0 || replies == [] || !replies[0].ChunkAck? then VerdictSaid(g)
    else
      [Chunk(stream, offset, content[offset..NextOffset(offset, chunk, g.sizeBytes)])]
      + ChunksFollow(g, stream, content, chunk, replies[0].bytesReceived, replies[1..])
  }

  /** Every chunk is taken as it comes. */
  predicate InOrder(replies: seq<Reply>, g: Goal, stream: u64, chunk: nat, offset: u64)
    decreases |replies|
  {
    if offset >= g.sizeBytes || chunk == 0 then VerdictHeard(replies, g)
    else
      var next := NextOffset(offset, chunk, g.sizeBytes);
      replies != [] && replies[0] == ChunkAck(stream, next, Success) && InOrder(replies[1..], g, stream, chunk, next)
  }

  /** The content from `offset` on, in chunks, and then the rest of the conversation. */
  function ChunksSaid(g: Goal, stream: u64, content: Bytes, chunk: nat, offset: u64): seq<Message>
    requires |content| == g.sizeBytes
    decreases g.sizeBytes - offset
  {
    if offset >= g.sizeBytes || chunk == 0 then VerdictSaid(g)
    else
      var next := NextOffset(offset, chunk, g.sizeBytes);
      [Chunk(stream, offset, content[offset..next])] + ChunksSaid(g, stream, content, chunk, next)
  }

  /** When every chunk is taken as it comes, the content is sent once, front to back. */
  lemma {:induction false} InOrderFollows(replies: seq<Reply>, g: Goal, stream: u64, content: Bytes, chunk: nat, offset: u64)
    requires |content| == g.sizeBytes && InOrder(replies, g, stream, chunk, offset)
    ensures ChunksHeard(replies, g, stream, chunk, offset)
    ensures ChunksFollow(g, stream, content, chunk, offset, replies) == ChunksSaid(g, stream, content, chunk, offset)
    decreases |replies|
  {
    hide VerdictHeard, VerdictSaid;
    if offset < g.sizeBytes && chunk != 0 {
      InOrderFollows(replies[1..], g, stream, content, chunk, NextOffset(offset, chunk, g.sizeBytes));
    }
  }

  predicate OfferHeard(replies: seq<Reply>, g: Goal, stream: u64, chunk: nat) {
    && replies != [] && replies[0].PrepareAck? && replies[0].deployment == g.id && replies[0].stream == stream
    && !replies[0].duplicateSuppressed && ChunksHeard(replies[1..], g, stream, chunk, replies[0].resumeFrom)
  }

  /** The offer is accepted and every chunk taken as it comes. */
  predicate OfferInOrder(replies: seq<Reply>, g: Goal, stream: u64, chunk: nat) {
    && replies != [] && replies[0].PrepareAck? && replies[0].deployment == g.id && replies[0].stream == stream
    && !replies[0].duplicateSuppressed && InOrder(replies[1..], g, stream, chunk, replies[0].resumeFrom)
  }

  /** The offer, the content from where the target wants to resume, completion, staging, window and commit. */
  function OfferSaid(g: Goal, m: PrepareMessage, content: Bytes, chunk: nat, resumeFrom: u64): seq<Message>
    requires |content| == g.sizeBytes
  {
    [Prepare(m)] + ChunksSaid(g, m.stream, content, chunk, resumeFrom)
  }
}

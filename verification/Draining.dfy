/** Sending a whole queue batch by batch: what repeated peekBatch and confirm hand out. */
module Draining {
  import opened Basics
  import opened Codec
  import opened OutboxModel
  import opened Batching

  /** The batch a peek at this memory returns; Outbox.PeekBatch returns the same prefix of the pending events. */
  function Peeked(m: Memory): (batch: seq<Event>)
    ensures |batch| <= |m.pending|
    ensures m.pending != [] ==> batch != []
  {
    EventsOf(m.pending)[..Head(EventsOf(m.pending), MAX_EVENTS_PER_BATCH, MAX_BATCH_BYTES)]
  }

  lemma ConfirmedEvents(m: Memory, count: nat)
    requires count <= |m.pending|
    ensures EventsOf(ConfirmMemory(m, count).pending) == EventsOf(m.pending)[count..]
    ensures |ConfirmMemory(m, count).pending| == |m.pending| - count
  {
    hide PendingBytes, Encode;
    assert EventsOf(m.pending[count..]) == EventsOf(m.pending)[count..];
    assert EventsOf(Fresh(EventsOf(m.pending[count..]))) == EventsOf(m.pending[count..]);
  }

  /** Peek, confirm what was peeked, and again, until nothing is pending. */
  function HandedOut(m: Memory): seq<seq<Event>>
    decreases |m.pending|
  {
    if m.pending == [] then []
    else
      var batch := Peeked(m);
      ConfirmedEvents(m, |batch|);
      [batch] + HandedOut(ConfirmMemory(m, |batch|))
  }

  /**
   * The batches handed out one at a time by the queue, across every compaction on the
   * way, are exactly the chunks of the one-shot partition of the same events.
   */
  lemma {:induction false} HandedOutIsChunks(m: Memory)
    ensures HandedOut(m) == Chunks(EventsOf(m.pending))
    decreases |m.pending|
  {
    hide ConfirmMemory, Head, HeadLength, Encode;
    if m.pending != [] {
      var batch := Peeked(m);
      ConfirmedEvents(m, |batch|);
      HandedOutIsChunks(ConfirmMemory(m, |batch|));
    }
  }
}

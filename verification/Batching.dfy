/** Batch bodies, their byte length, and the greedy partition under a count cap and a byte cap. */
module Batching {
  import opened Basics
  import opened Codec

  const MAX_EVENTS_PER_BATCH: nat := 500
  const MAX_BATCH_BYTES: nat := 3 * 1024 * 1024

  const BATCH_HEAD: Bytes := Ascii("{\"batch_id\":\"")
  const SENT_AT: Bytes := Ascii("\",\"sent_at\":\"")
  const EVENTS: Bytes := Ascii("\",\"events\":[")
  const BATCH_TAIL: Bytes := Ascii("]}")
  const COMMA: byte := 0x2C

  /** A batch_id is a UUID and sent_at an ISO 8601 instant with milliseconds. */
  const UUID_LENGTH: nat := |"00000000-0000-4000-8000-000000000000"|
  const INSTANT_LENGTH: nat := |"2000-01-01T00:00:00.000Z"|

  const EMPTY_BATCH_BODY_BYTES: nat := 100

  // ---------- Bodies ----------

  function JoinEvents(events: seq<Event>): Bytes {
    if events == [] then []
    else if |events| == 1 then Encode(events[0])
    else JoinEvents(events[..|events| - 1]) + [COMMA] + Encode(events[|events| - 1])
  }

  function SerializeBatch(batchId: Bytes, sentAt: Bytes, events: seq<Event>): Bytes {
    BATCH_HEAD + batchId + SENT_AT + sentAt + EVENTS + JoinEvents(events) + BATCH_TAIL
  }

  /** The byte count the sender computes without serializing. */
  function BatchBodyByteLength(events: seq<Event>): nat {
    if events == [] then EMPTY_BATCH_BODY_BYTES
    else
      var last := |events| - 1;
      BatchBodyByteLength(events[..last]) + |Encode(events[last])| + (if last == 0 then 0 else 1)
  }

  lemma EnvelopeLength()
    ensures |BATCH_HEAD| + UUID_LENGTH + |SENT_AT| + INSTANT_LENGTH + |EVENTS| + |BATCH_TAIL| == EMPTY_BATCH_BODY_BYTES
  {
  }

  lemma {:induction false} JoinLength(events: seq<Event>)
    ensures EMPTY_BATCH_BODY_BYTES + |JoinEvents(events)| == BatchBodyByteLength(events)
  {
    hide Encode;
    if |events| > 0 {
      var last := |events| - 1;
      JoinLength(events[..last]);
    }
  }

  /** The computed byte count is exactly the length of the serialized request body. */
  lemma BodyLengthExact(batchId: Bytes, sentAt: Bytes, events: seq<Event>)
    requires |batchId| == UUID_LENGTH && |sentAt| == INSTANT_LENGTH
    ensures |SerializeBatch(batchId, sentAt, events)| == BatchBodyByteLength(events)
  {
    EnvelopeLength();
    JoinLength(events);
  }

  /** Dropping leading events never makes a body longer. */
  lemma {:induction false} SuffixNotLonger(events: seq<Event>, k: nat)
    requires k <= |events|
    ensures BatchBodyByteLength(events[k..]) <= BatchBodyByteLength(events)
    ensures EMPTY_BATCH_BODY_BYTES <= BatchBodyByteLength(events)
  {
    hide Encode;
    if |events| > 0 {
      var last := |events| - 1;
      if k <= last {
        SuffixNotLonger(events[..last], k);
        assert events[..last][k..] == events[k..][..last - k];
      } else {
        SuffixNotLonger(events[..last], last);
        assert events[k..] == [];
      }
    }
  }

  lemma {:induction false} PrefixNotLonger(events: seq<Event>, k: nat)
    requires k <= |events|
    ensures BatchBodyByteLength(events[..k]) <= BatchBodyByteLength(events)
  {
    hide Encode;
    if k < |events| {
      PrefixNotLonger(events[..|events| - 1], k);
      assert events[..|events| - 1][..k] == events[..k];
    } else {
      assert events[..k] == events;
    }
  }

  // ---------- Greedy partition ----------

  /** A batch the sender may send: a single event always, more only under both caps. */
  predicate Fits(batch: seq<Event>, maxCount: nat, maxBytes: nat) {
    |batch| <= maxCount && (|batch| <= 1 || BatchBodyByteLength(batch) <= maxBytes)
  }

  /** The length of the longest fitting head, grown one event at a time. */
  function HeadLength(events: seq<Event>, maxCount: nat, maxBytes: nat, taken: nat): (n: nat)
    requires taken <= |events|
    ensures taken <= n <= |events|
    decreases |events| - taken
  {
    if taken < |events| && Fits(events[..taken + 1], maxCount, maxBytes)
    then HeadLength(events, maxCount, maxBytes, taken + 1)
    else taken
  }

  function Head(events: seq<Event>, maxCount: nat, maxBytes: nat): (n: nat)
    ensures n <= |events|
    ensures events != [] && maxCount > 0 ==> n > 0
  {
    HeadLength(events, maxCount, maxBytes, 0)
  }

  lemma FittingPrefix(events: seq<Event>, k: nat, maxCount: nat, maxBytes: nat)
    requires k <= |events| && Fits(events, maxCount, maxBytes)
    ensures Fits(events[..k], maxCount, maxBytes) && Fits(events[k..], maxCount, maxBytes)
  {
    PrefixNotLonger(events, k);
    SuffixNotLonger(events, k);
  }

  lemma FitsShorter(events: seq<Event>, short: nat, long: nat, maxCount: nat, maxBytes: nat)
    requires short <= long <= |events|
    ensures Fits(events[..long], maxCount, maxBytes) ==> Fits(events[..short], maxCount, maxBytes)
  {
    assert events[..long][..short] == events[..short];
    PrefixNotLonger(events[..long], short);
  }

  /** The head fits, and no longer prefix does. */
  lemma {:induction false} HeadIsLongest(events: seq<Event>, maxCount: nat, maxBytes: nat, taken: nat)
    requires taken <= |events| && Fits(events[..taken], maxCount, maxBytes)
    ensures var n := HeadLength(events, maxCount, maxBytes, taken);
            && Fits(events[..n], maxCount, maxBytes)
            && (forall m :: n < m <= |events| ==> !Fits(events[..m], maxCount, maxBytes))
    decreases |events| - taken
  {
    hide Fits;
    if taken < |events| && Fits(events[..taken + 1], maxCount, maxBytes) {
      HeadIsLongest(events, maxCount, maxBytes, taken + 1);
    } else {
      forall m | taken < m <= |events| ensures !Fits(events[..m], maxCount, maxBytes) {
        FitsShorter(events, taken + 1, m, maxCount, maxBytes);
      }
    }
  }

  /** Repeatedly taking the longest head. */
  function Chunks(events: seq<Event>): seq<seq<Event>>
    decreases |events|
  {
    if events == [] then []
    else
      var n := Head(events, MAX_EVENTS_PER_BATCH, MAX_BATCH_BYTES);
      [events[..n]] + Chunks(events[n..])
  }

  function Concat(parts: seq<seq<Event>>): seq<Event> {
    if parts == [] then [] else parts[0] + Concat(parts[1..])
  }

  /** A contiguous partition into non-empty batches that obey the caps. */
  ghost predicate Admissible(parts: seq<seq<Event>>, events: seq<Event>) {
    && Concat(parts) == events
    && forall i :: 0 <= i < |parts| ==> parts[i] != [] && Fits(parts[i], MAX_EVENTS_PER_BATCH, MAX_BATCH_BYTES)
  }

  lemma {:induction false} ChunksAdmissible(events: seq<Event>)
    ensures Admissible(Chunks(events), events)
    decreases |events|
  {
    hide Fits, HeadLength;
    if events != [] {
      var n := Head(events, MAX_EVENTS_PER_BATCH, MAX_BATCH_BYTES);
      assert events[..0] == [] && Fits([], MAX_EVENTS_PER_BATCH, MAX_BATCH_BYTES) by { NothingFits(); }
      HeadIsLongest(events, MAX_EVENTS_PER_BATCH, MAX_BATCH_BYTES, 0);
      ChunksAdmissible(events[n..]);
      assert Chunks(events)[1..] == Chunks(events[n..]);
      assert events == events[..n] + events[n..];
    }
  }

  lemma NothingFits()
    ensures Fits([], MAX_EVENTS_PER_BATCH, MAX_BATCH_BYTES)
  {
  }

  lemma LongestHead(events: seq<Event>, n: nat)
    requires 0 < n <= |events| && Fits(events[..n], MAX_EVENTS_PER_BATCH, MAX_BATCH_BYTES)
    ensures var head := Head(events, MAX_EVENTS_PER_BATCH, MAX_BATCH_BYTES);
            n <= head <= |events| && Chunks(events) == [events[..head]] + Chunks(events[head..])
  {
    hide Fits, HeadLength;
    NothingFits();
    assert events[..0] == [];
    HeadIsLongest(events, MAX_EVENTS_PER_BATCH, MAX_BATCH_BYTES, 0);
  }

  lemma SuffixOfConcat(part: seq<Event>, later: seq<Event>, gone: nat, n: nat)
    requires gone <= |part| && |part| - gone <= n <= |part + later| - gone
    ensures (part + later)[gone..][n..] == later[n - (|part| - gone)..]
    ensures (part + later)[gone..][..|part| - gone] == part[gone..]
  {
  }

  /** However many leading events are already gone, greedy needs no more batches than any partition. */
  lemma {:induction false} GreedyStaysAhead(parts: seq<seq<Event>>, gone: nat)
    requires forall i :: 0 <= i < |parts| ==> Fits(parts[i], MAX_EVENTS_PER_BATCH, MAX_BATCH_BYTES)
    requires gone <= |Concat(parts)|
    ensures |Chunks(Concat(parts)[gone..])| <= |parts|
    decreases |parts|
  {
    hide Fits, Head, Chunks;
    ChunksNothing();
    var rest := Concat(parts)[gone..];
    if rest != [] {
      var (part, later) := (parts[0], parts[1..]);
      if gone >= |part| {
        GreedyStaysAhead(later, gone - |part|);
        assert rest == Concat(later)[gone - |part|..];
      } else {
        var left := |part| - gone;
        FittingPrefix(part, gone, MAX_EVENTS_PER_BATCH, MAX_BATCH_BYTES);
        SuffixOfConcat(part, Concat(later), gone, left);
        LongestHead(rest, left);
        var n := Head(rest, MAX_EVENTS_PER_BATCH, MAX_BATCH_BYTES);
        SuffixOfConcat(part, Concat(later), gone, n);
        GreedyStaysAhead(later, n - left);
      }
    }
  }

  lemma ChunksNothing()
    ensures Chunks([]) == []
  {
  }

  /** No partition under the same caps has fewer batches. */
  lemma ChunksMinimal(events: seq<Event>, parts: seq<seq<Event>>)
    requires Admissible(parts, events)
    ensures |Chunks(events)| <= |parts|
  {
    GreedyStaysAhead(parts, 0);
    assert events[0..] == events;
  }

  /** A fitting prefix that cannot grow is the first chunk. */
  lemma ChunksStep(events: seq<Event>, n: nat)
    requires 0 < n <= |events|
    requires Fits(events[..n], MAX_EVENTS_PER_BATCH, MAX_BATCH_BYTES)
    requires n < |events| ==> !Fits(events[..n + 1], MAX_EVENTS_PER_BATCH, MAX_BATCH_BYTES)
    ensures Chunks(events) == [events[..n]] + Chunks(events[n..])
  {
    hide Fits, HeadLength;
    NothingFits();
    assert events[..0] == [];
    HeadIsLongest(events, MAX_EVENTS_PER_BATCH, MAX_BATCH_BYTES, 0);
    var head := Head(events, MAX_EVENTS_PER_BATCH, MAX_BATCH_BYTES);
    if n < |events| {
      FitsShorter(events, n + 1, if head > n then head else n + 1, MAX_EVENTS_PER_BATCH, MAX_BATCH_BYTES);
    }
  }

  /** The two caps, as the running byte count sees them. */
  lemma CapStep(batch: seq<Event>, event: Event, maxCount: nat, maxBytes: nat)
    ensures var size := |Encode(event)| + (if |batch| == 0 then 0 else 1);
            && BatchBodyByteLength(batch + [event]) == BatchBodyByteLength(batch) + size
            && (Fits(batch + [event], maxCount, maxBytes) <==>
                |batch| < maxCount && (|batch| == 0 || BatchBodyByteLength(batch) + size <= maxBytes))
  {
    hide Encode;
    assert (batch + [event])[..|batch|] == batch;
  }

  /** Where the loop of chunkEvents is: closed chunks, and a fitting current batch behind them. */
  ghost predicate Chunking(events: seq<Event>, chunks: seq<seq<Event>>, start: nat, i: nat) {
    && start <= i <= |events|
    && (i > 0 ==> start < i)
    && Fits(events[start..i], MAX_EVENTS_PER_BATCH, MAX_BATCH_BYTES)
    && chunks + Chunks(events[start..]) == Chunks(events)
  }

  lemma ChunkingStart(events: seq<Event>)
    ensures Chunking(events, [], 0, 0)
  {
    hide Fits, Chunks;
    NothingFits();
    assert events[0..0] == [] && events[0..] == events;
    assert [] + Chunks(events) == Chunks(events);
  }

  lemma ChunkingGrows(events: seq<Event>, chunks: seq<seq<Event>>, start: nat, i: nat)
    requires Chunking(events, chunks, start, i) && i < |events|
    requires Fits(events[start..i] + [events[i]], MAX_EVENTS_PER_BATCH, MAX_BATCH_BYTES)
    ensures Chunking(events, chunks, start, i + 1)
    ensures events[start..i] + [events[i]] == events[start..i + 1]
  {
    hide Fits, Chunks;
    assert events[start..i] + [events[i]] == events[start..i + 1];
  }

  lemma ChunkingCloses(events: seq<Event>, chunks: seq<seq<Event>>, start: nat, i: nat)
    requires Chunking(events, chunks, start, i) && start < i
    requires i < |events| ==> !Fits(events[start..i] + [events[i]], MAX_EVENTS_PER_BATCH, MAX_BATCH_BYTES)
    ensures (chunks + [events[start..i]]) + Chunks(events[i..]) == Chunks(events)
  {
    hide Fits, Chunks;
    var rest := events[start..];
    var n := i - start;
    assert rest[..n] == events[start..i] && rest[n..] == events[i..];
    assert i < |events| ==> rest[..n + 1] == events[start..i] + [events[i]];
    ChunksStep(rest, n);
    assert (chunks + [rest[..n]]) + Chunks(events[i..]) == chunks + ([rest[..n]] + Chunks(events[i..]));
  }

  lemma ChunkingReopens(events: seq<Event>, chunks: seq<seq<Event>>, i: nat)
    requires i < |events| && chunks + Chunks(events[i..]) == Chunks(events)
    requires Fits([events[i]], MAX_EVENTS_PER_BATCH, MAX_BATCH_BYTES)
    ensures Chunking(events, chunks, i, i + 1)
  {
    hide Fits, Chunks;
    assert [events[i]] == events[i..i + 1];
  }

  lemma AnySingleFits(event: Event)
    ensures Fits([event], MAX_EVENTS_PER_BATCH, MAX_BATCH_BYTES)
  {
    hide BatchBodyByteLength;
  }

  /** chunkEvents: one pass with a growing current batch produces the greedy partition. */
  method ChunkEvents(events: seq<Event>) returns (chunks: seq<seq<Event>>)
    ensures chunks == Chunks(events)
  {
    hide *;
    chunks := [];
    var current: seq<Event> := [];
    var currentBytes := EMPTY_BATCH_BODY_BYTES;
    ghost var start := 0;
    var i := 0;
    ChunkingStart(events);
    ChunkingShape(events, chunks, start, i);
    EmptyBody();
    while i < |events|
      invariant start <= i <= |events| && current == events[start..i]
      invariant i > 0 ==> start < i
      invariant Chunking(events, chunks, start, i)
      invariant currentBytes == BatchBodyByteLength(current)
    {
      var event := events[i];
      var size := |Encode(event)| + (if |current| == 0 then 0 else 1);
      CapStep(current, event, MAX_EVENTS_PER_BATCH, MAX_BATCH_BYTES);
      if |current| > 0 && (|current| >= MAX_EVENTS_PER_BATCH || currentBytes + size > MAX_BATCH_BYTES) {
        ChunkingCloses(events, chunks, start, i);
        chunks := chunks + [current];
        AnySingleFits(event);
        ChunkingReopens(events, chunks, i);
        current := [];
        currentBytes := EMPTY_BATCH_BODY_BYTES;
        start := i;
        CapStep(current, event, MAX_EVENTS_PER_BATCH, MAX_BATCH_BYTES);
      } else {
        if |current| == 0 {
          AnySingleFits(event);
          assert current + [event] == [event];
        }
        ChunkingGrows(events, chunks, start, i);
      }
      var separatorBytes := if |current| == 0 then 0 else 1;
      currentBytes := currentBytes + |Encode(event)| + separatorBytes;
      current := current + [event];
      i := i + 1;
    }
    if |current| > 0 {
      ChunkingCloses(events, chunks, start, i);
      ChunksNothing();
      assert events[i..] == [];
      chunks := chunks + [current];
      assert chunks + [] == chunks;
    } else {
      ChunksNothing();
      ChunkingShape(events, chunks, start, i);
      assert events[start..] == [] && chunks + [] == chunks;
    }
  }

  lemma ChunkingShape(events: seq<Event>, chunks: seq<seq<Event>>, start: nat, i: nat)
    requires Chunking(events, chunks, start, i)
    ensures start <= i <= |events| && (i > 0 ==> start < i)
    ensures chunks + Chunks(events[start..]) == Chunks(events)
  {
    hide Fits, Chunks;
  }

  lemma EmptyBody()
    ensures BatchBodyByteLength([]) == EMPTY_BATCH_BODY_BYTES
  {
  }
}

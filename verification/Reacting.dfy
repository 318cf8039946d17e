/** Answering a response on disk: completed, and killed at any byte of any of its file steps. */
module Reacting {
  import opened Basics
  import opened Codec
  import opened DaemonModel
  import opened Disk
  import opened Framing
  import opened OutboxModel
  import opened Recovery

  /** The failed records once a reaction has quarantined what it must. */
  function FailedAfter(failed: seq<Bytes>, events: seq<Event>): seq<Bytes> {
    failed + IdsOf(NewFailures(events, Elements(failed)))
  }

  /** Quarantining leaves a record for every event and never a second one for an id. */
  lemma FailedAfterCovers(failed: seq<Bytes>, events: seq<Event>, n: nat)
    requires n <= |NewFailures(events, Elements(failed))|
    ensures var failures := NewFailures(events, Elements(failed));
            && (forall e :: e in events ==> e.eventId in FailedAfter(failed, events))
            && (forall id :: id in failed + IdsOf(failures)[..n] ==>
                id in failed || exists e :: e in events && e.eventId == id)
            && (Distinct(failed) ==> Distinct(failed + IdsOf(failures)[..n]))
            && IdsOf(failures)[..|failures|] == IdsOf(failures)
  {
    var failures := NewFailures(events, Elements(failed));
    NewFailuresCover(events, Elements(failed));
    hide NewFailures;
    forall id | id in failed + IdsOf(failures)[..n] ensures id in failed || exists e :: e in events && e.eventId == id {
      if id !in failed {
        var i :| 0 <= i < n && IdsOf(failures)[..n][i] == id;
        assert failures[i] in failures;
      }
    }
    if Distinct(failed) {
      forall i | 0 <= i < n ensures IdsOf(failures)[..n][i] !in failed {
        assert failures[i] in failures;
      }
    }
  }

  lemma ReactDone(d: Disk, m: Memory, r: Reaction, detail: Bytes)
    requires Synced(d, m) && Tail(Read(d, Failed)) == [] && r.confirm <= |m.pending|
    ensures DecodeFailedAll(FailedLines(d)).Some?
    ensures var d1 := ExecAll(d, ReactOps(m, Elements(FailedIds(d)), r, detail));
            var m1 := ConfirmMemory(m, r.confirm);
            && Synced(d1, m1) && Tail(Read(d1, Failed)) == []
            && QueueOfMemory(d1, m1) ==
                 Queue(EventsOf(m.pending)[r.confirm..], m.RecordedCount(), FailedAfter(FailedIds(d), r.quarantine))
  {
    hide *;
    SyncedFailed(d, m);
    var failures := NewFailures(r.quarantine, Elements(FailedIds(d)));
    var first := QuarantineOps(failures, detail);
    var d0 := ExecAll(d, first);
    CompletedIsReachable(d, first);
    var n := QuarantineKilled(d, m, failures, detail, d0);
    FailedAfterCovers(FailedIds(d), r.quarantine, n);
    ConfirmDone(d0, m, r.confirm);
    ExecAppend(d, first, ConfirmOps(m, r.confirm));
    ReactOpsIs(m, Elements(FailedIds(d)), r, detail);
    var (d1, m1) := (ExecAll(d0, ConfirmOps(m, r.confirm)), ConfirmMemory(m, r.confirm));
    SyncedFailed(d1, m1);
    SameFailedIds(d0, d1);
    QueueIs(d1, m1);
  }

  /**
   * A kill during a reaction leaves the whole batch pending with some of its failures
   * recorded, or the whole batch confirmed with all of them recorded. Nothing in between.
   */
  lemma ReactKilled(d: Disk, m: Memory, r: Reaction, detail: Bytes, d': Disk) returns (n: nat)
    requires Synced(d, m) && Tail(Read(d, Failed)) == [] && r.confirm <= |m.pending|
    requires DecodeFailedAll(FailedLines(d)).Some?
    requires KilledDuring(d, ReactOps(m, Elements(FailedIds(d)), r, detail), d')
    ensures var failures := NewFailures(r.quarantine, Elements(FailedIds(d)));
            && n <= |failures|
            && (View(d') == Ok(Queue(EventsOf(m.pending), m.RecordedCount(), FailedIds(d) + IdsOf(failures)[..n]))
                || (n == |failures| &&
                    View(d') == Ok(Queue(EventsOf(m.pending)[r.confirm..], m.RecordedCount(),
                        FailedIds(d) + IdsOf(failures)[..n]))))
  {
    hide *;
    var failures := NewFailures(r.quarantine, Elements(FailedIds(d)));
    var first := QuarantineOps(failures, detail);
    ReactOpsIs(m, Elements(FailedIds(d)), r, detail);
    KilledInStages(d, first, ConfirmOps(m, r.confirm), d');
    if KilledDuring(d, first, d') {
      n := QuarantineKilled(d, m, failures, detail, d');
      SyncedAccounting(d', m);
      QueueIs(d', m);
    } else {
      var d0 := ExecAll(d, first);
      CompletedIsReachable(d, first);
      n := QuarantineKilled(d, m, failures, detail, d0);
      SyncedFailed(d0, m);
      ConfirmKilled(d0, m, r.confirm, d');
      QueueIs(d0, m);
      AdvanceQueueIs(d0, m, r.confirm);
    }
  }

  lemma ReactOpsIs(m: Memory, known: set<Bytes>, r: Reaction, detail: Bytes)
    requires r.confirm <= |m.pending|
    ensures ReactOps(m, known, r, detail) ==
              QuarantineOps(NewFailures(r.quarantine, known), detail) + ConfirmOps(m, r.confirm)
    ensures forall failed ::
              FailedAfter(failed, r.quarantine) == failed + IdsOf(NewFailures(r.quarantine, Elements(failed)))
  {
    hide QuarantineOps, ConfirmOps, NewFailures, IdsOf;
  }
}

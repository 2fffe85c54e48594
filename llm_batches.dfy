/**
 * The polling rule of `listBatchesDueForPolling`
 * (`domain/llm_calls/llm_calls_batches.ts`): the submitted batches, then
 * the running ones, each in table order, keeping those that are not
 * locked and whose next poll time has come.
 */
module LlmBatches {
  import opened Wrappers
  import opened JsArrays

  /** A batch's status (`LlmBatchStatusSchema`). */
  datatype BatchStatus = Queued | Submitted | Running | Completed | Errored | Canceled

  /** The fields of an `llm_batches` row the scheduler reads. */
  datatype Batch = Batch(
    status: BatchStatus,
    runId: Option<string>,
    provider: string,
    model: string,
    lockedUntil: Option<int>,
    nextPollAt: Option<int>,
    createdAt: int)

  /** `batch.locked_until && batch.locked_until > now`: a lock time of 0 counts as no lock. */
  predicate Locked(b: Batch, now: int)
  {
    b.lockedUntil.Some? && b.lockedUntil.value != 0 && b.lockedUntil.value > now
  }

  /** `batch.next_poll_at ?? batch.created_at`. */
  function NextPoll(b: Batch): int
  {
    b.nextPollAt.GetOr(b.createdAt)
  }

  /** The filter's predicate. */
  function DueAt(now: int): Batch -> bool
  {
    (b: Batch) => !Locked(b, now) && NextPoll(b) <= now
  }

  function HasStatus(st: BatchStatus): Batch -> bool
  {
    (b: Batch) => b.status == st
  }

  /** The `by_status` index for one status, in table order. */
  function ByStatus(batches: seq<Batch>, st: BatchStatus): seq<Batch>
  {
    Filter(batches, HasStatus(st))
  }

  /** The rows the query reads: submitted ones first, then running ones. */
  function Candidates(batches: seq<Batch>): seq<Batch>
  {
    ByStatus(batches, Submitted) + ByStatus(batches, Running)
  }

  /** `listBatchesDueForPolling(now)`. */
  function DueForPolling(batches: seq<Batch>, now: int): seq<Batch>
  {
    Filter(Candidates(batches), DueAt(now))
  }

  /** A batch is listed exactly when it is submitted or running, not locked, and its
      next poll time (its creation time when none is set) is not after now. */
  lemma DueForPollingMembers(batches: seq<Batch>, now: int, b: Batch)
    ensures b in DueForPolling(batches, now) <==>
              b in batches && (b.status == Submitted || b.status == Running)
              && !Locked(b, now) && NextPoll(b) <= now
  {
    var c := Candidates(batches);
    if b in batches && (b.status == Submitted || b.status == Running) {
      var k :| 0 <= k < |batches| && batches[k] == b;
      if b.status == Submitted {
        assert b in ByStatus(batches, Submitted);
      } else {
        assert b in ByStatus(batches, Running);
      }
      assert b in c;
    }
    if b in c {
      var k :| 0 <= k < |c| && c[k] == b;
      if k < |ByStatus(batches, Submitted)| {
        assert b in ByStatus(batches, Submitted);
      } else {
        assert b == ByStatus(batches, Running)[k - |ByStatus(batches, Submitted)|];
      }
    }
  }

  /** The result keeps the query's order: a subsequence of the submitted-then-running rows. */
  lemma DueForPollingOrder(batches: seq<Batch>, now: int)
    ensures Subsequence(DueForPolling(batches, now), Candidates(batches))
    ensures |DueForPolling(batches, now)| <= |Candidates(batches)|
  {
    FilterSubsequence(Candidates(batches), DueAt(now));
  }

  /** A lock held past now keeps a batch out, whatever its poll time. */
  lemma LockedNeverDue(batches: seq<Batch>, now: int, b: Batch)
    requires b.lockedUntil.Some? && b.lockedUntil.value > now && b.lockedUntil.value != 0
    ensures b !in DueForPolling(batches, now)
  {
    DueForPollingMembers(batches, now, b);
  }
}

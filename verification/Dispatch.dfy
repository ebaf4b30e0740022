/** The shared arrays of one process and the code that updates them in place:
    the dispatch loop of progress_thread and reset_counters (benchmark/pingpong_prg.cpp). */
module Dispatch {
  import opened RoundRobin

  /** Every (group, position) is a worker thread. */
  lemma WorkerIdInRange(rx: nat, w: nat, g: nat, p: nat)
    requires g < rx && p < w
    ensures WorkerId(rx, g, p) < rx * w
  {
    MulMonotone(p + 1, w, rx);
  }

  class Process {
    const rx: nat
    const w: nat
    const syncs: array<int>
    const nextWorkerIdxes: array<int>
    const progressCounters: array<int>

    ghost predicate Valid()
      reads this
    {
      && 0 < rx && 0 < w
      && syncs.Length == rx * w
      && nextWorkerIdxes.Length == rx
      && progressCounters.Length == rx
      && syncs != nextWorkerIdxes && syncs != progressCounters && nextWorkerIdxes != progressCounters
    }

    /** main and the start of each progress thread: counters 0, cursors at the thread ids. */
    constructor (rx: nat, w: nat)
      requires 0 < rx && 0 < w
      ensures Valid() && this.rx == rx && this.w == w
      ensures fresh(syncs) && fresh(nextWorkerIdxes) && fresh(progressCounters)
      ensures forall t | 0 <= t < syncs.Length :: syncs[t] == 0
      ensures forall g | 0 <= g < rx :: nextWorkerIdxes[g] == g && progressCounters[g] == 0
    {
      this.rx, this.w := rx, w;
      syncs := new int[rx * w](_ => 0);
      nextWorkerIdxes := new int[rx](g => g);
      progressCounters := new int[rx](_ => 0);
    }

    /** One turn of the progress loop after `n` completions were polled. `m` is the number of
        dispatches this thread has made since its cursor was last at its id. Every worker of the
        group gets its share of dispatches m .. m + n - 1 and nobody else gets anything. */
    method DispatchBatch(id: nat, n: nat, ghost m: nat)
      requires Valid() && id < rx
      requires nextWorkerIdxes[id] == WorkerId(rx, id, m % w)
      modifies syncs, nextWorkerIdxes, progressCounters
      ensures nextWorkerIdxes[id] == WorkerId(rx, id, (m + n) % w)
      ensures forall g | 0 <= g < rx && g != id :: nextWorkerIdxes[g] == old(nextWorkerIdxes[g])
      ensures progressCounters[id] == old(progressCounters[id]) + 1
      ensures forall g | 0 <= g < rx && g != id :: progressCounters[g] == old(progressCounters[g])
      ensures forall t: nat | t < rx * w ::
                syncs[t] == old(syncs[t]) + GainOf(rx, w, id, m, m + n, t)
    {
      progressCounters[id] := progressCounters[id] + 1;
      for k := 0 to n
        invariant nextWorkerIdxes[id] == WorkerId(rx, id, (m + k) % w)
        invariant forall g | 0 <= g < rx && g != id :: nextWorkerIdxes[g] == old(nextWorkerIdxes[g])
        invariant progressCounters[id] == old(progressCounters[id]) + 1
        invariant forall g | 0 <= g < rx && g != id :: progressCounters[g] == old(progressCounters[g])
        invariant forall t: nat | t < rx * w ::
                    syncs[t] == old(syncs[t]) + GainOf(rx, w, id, m, m + k, t)
      {
        var workerIdx := nextWorkerIdxes[id];
        WorkerIdInRange(rx, w, id, (m + k) % w);
        IncrementIsNextPosition(w, rx, id, m + k);
        nextWorkerIdxes[id] := if workerIdx + rx >= syncs.Length then id else workerIdx + rx;
        ghost var now, next := m + k, m + k + 1;
        forall t: nat | t < rx * w
          ensures GainOf(rx, w, id, m, next, t) == GainOf(rx, w, id, m, now, t) + (if t == workerIdx then 1 else 0)
        {
          GainStep(rx, w, id, m, now, t);
        }
        syncs[workerIdx] := syncs[workerIdx] + 1;
      }
    }

    /** reset_counters: thread 0 acts for everybody, the other threads return at once. */
    method ResetCounters(threadId: nat, count: int)
      requires Valid()
      modifies syncs, nextWorkerIdxes, progressCounters
      ensures threadId != 0 ==>
                && syncs[..] == old(syncs[..])
                && nextWorkerIdxes[..] == old(nextWorkerIdxes[..])
                && progressCounters[..] == old(progressCounters[..])
      ensures threadId == 0 ==>
                && (forall t | 0 <= t < syncs.Length :: syncs[t] == count)
                && (forall g | 0 <= g < rx :: nextWorkerIdxes[g] == g && progressCounters[g] == 0)
    {
      if threadId != 0 {
        return;
      }
      for i := 0 to syncs.Length
        invariant forall t | 0 <= t < i :: syncs[t] == count
      {
        syncs[i] := count;
      }
      for i := 0 to rx
        invariant forall t | 0 <= t < syncs.Length :: syncs[t] == count
        invariant forall g | 0 <= g < i :: nextWorkerIdxes[g] == g && progressCounters[g] == 0
      {
        nextWorkerIdxes[i] := i;
        progressCounters[i] := 0;
      }
    }
  }

  /** What worker t gains from dispatches m .. m' - 1 of progress thread `id`. */
  function GainOf(rx: nat, w: nat, id: nat, m: nat, m': nat, t: nat): int
    requires 0 < rx && t < rx * w
  {
    if t % rx == id then
      PositionInRange(rx, w, t);
      Share(m', w, t / rx) - Share(m, w, t / rx)
    else 0
  }

  /** Every worker thread has a group and a position in it. */
  lemma PositionInRange(rx: nat, w: nat, t: nat)
    requires 0 < rx && t < rx * w
    ensures 0 <= t / rx < w && t == WorkerId(rx, t % rx, t / rx)
  {
    assert t == (t / rx) * rx + t % rx;
    if t / rx >= w {
      MulMonotone(w, t / rx, rx);
    }
  }

  lemma GainStep(rx: nat, w: nat, id: nat, m: nat, k: nat, t: nat)
    requires 0 < rx && id < rx && 0 < w && t < rx * w
    ensures GainOf(rx, w, id, m, k + 1, t)
            == GainOf(rx, w, id, m, k, t) + (if t == WorkerId(rx, id, k % w) then 1 else 0)
  {
    PositionInRange(rx, w, t);
    WorkerIdDecodes(rx, id, k % w);
  }
}

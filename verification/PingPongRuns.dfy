/** What holds of every run of a whole job: any number of pairs of processes, any number of
    progress threads and workers, any iteration counts, any interleaving. */
module PingPongRuns {
  import opened Sums
  import opened RoundRobin
  import opened PingPong
  import opened PingPongSafety
  import opened PingPongProgress
  import opened PingPongTokens
  import opened PingPongSupply

  ghost predicate JobInv(c: Config, job: seq<Pair>)
    requires c.Valid()
  {
    forall i | 0 <= i < |job| :: Inv(c, job[i])
  }

  predicate JobReached(c: Config, job: seq<Pair>, b: nat)
    requires JobShape(c, job)
  {
    forall i | 0 <= i < |job| :: job[i].Reached(c, b)
  }

  predicate JobDone(c: Config, job: seq<Pair>)
    requires JobShape(c, job)
  {
    forall i | 0 <= i < |job| :: Done(c, job[i])
  }

  lemma JobStepInv(c: Config, job: seq<Pair>, i: nat, step: Step)
    requires c.Valid() && JobInv(c, job) && JobEnabled(c, job, i, step)
    ensures JobInv(c, JobApply(c, job, i, step))
  {
    StepPreservesInv(c, job[i], RestReached(c, job, i, StepStage(c, job[i], step)), step);
  }

  lemma JobNextStep(c: Config, job: seq<Pair>, job': seq<Pair>) returns (i: nat, step: Step)
    requires c.Valid() && JobNext(c, job, job')
    ensures JobShape(c, job) && JobEnabled(c, job, i, step) && job' == JobApply(c, job, i, step)
  {
    var j, st :| JobEnabled(c, job, j, st) && job' == JobApply(c, job, j, st);
    i, step := j, st;
  }

  lemma JobNextInv(c: Config, job: seq<Pair>, job': seq<Pair>)
    requires c.Valid() && JobInv(c, job) && JobNext(c, job, job')
    ensures JobInv(c, job') && |job'| == |job|
  {
    var i, step := JobNextStep(c, job, job');
    JobStepInv(c, job, i, step);
  }

  lemma ExtendRun(c: Config, n: nat, run: seq<seq<Pair>>, next: seq<Pair>)
    requires c.Valid() && IsRun(c, n, run) && JobNext(c, run[|run| - 1], next)
    ensures IsRun(c, n, run + [next])
  {
    var run' := run + [next];
    forall k | 0 <= k < |run'| - 1 ensures JobNext(c, run'[k], run'[k + 1]) {
      if k < |run| - 1 {
        assert JobNext(c, run[k], run[k + 1]);
      }
    }
  }

  /** The invariant holds in every state of every run. */
  lemma {:induction false} RunInv(c: Config, n: nat, run: seq<seq<Pair>>, k: nat)
    requires c.Valid() && IsRun(c, n, run) && k < |run|
    ensures |run[k]| == n && JobInv(c, run[k])
  {
    if k == 0 {
      InitInv(c);
    } else {
      var j := k - 1;
      RunInv(c, n, run, j);
      assert JobNext(c, run[j], run[j + 1]);
      JobNextInv(c, run[j], run[k]);
    }
  }

  // ---- Deadlock freedom ----

  lemma JobLowest(c: Config, job: seq<Pair>, b: nat) returns (i: nat, side: Side, g: nat, p: nat)
    requires c.Valid() && JobShape(c, job) && !JobReached(c, job, b)
    ensures i < |job| && Lowest(c, job[i], side, g, p)
    ensures JobReached(c, job, job[i].StageAt(c, side, g, p)) && job[i].StageAt(c, side, g, p) < b
    decreases b
  {
    if JobReached(c, job, b - 1) {
      i :| i < |job| && !job[i].Reached(c, b);
      side, g, p := LowestExists(c, job[i], b);
      assert job[i].Reached(c, b - 1);
    } else {
      i, side, g, p := JobLowest(c, job, b - 1);
    }
  }

  /** `open` matters to nothing but a barrier. */
  lemma OpenIrrelevant(c: Config, s: Pair, open: bool, step: Step)
    requires s.Shape(c) && Enabled(c, s, true, step) && (step.Cross? ==> open)
    ensures Enabled(c, s, open, step)
  {
  }

  /** A job in which somebody has not reached stage b can move, by a progress thread or by a worker
      that has not reached stage b and is not ahead of anybody; in pair 0 messages may be held back. */
  lemma JobCanStepBelow(c: Config, job: seq<Pair>, b: nat, hold: Hold) returns (i: nat, step: Step)
    requires c.Valid() && JobInv(c, job) && JobShape(c, job)
    requires !JobReached(c, job, b) && b <= 4 * c.Phases() + 1
    requires |job| > 0 ==> MayHold(c, job[0], hold)
    ensures JobEnabled(c, job, i, step)
    ensures IsWorkerStep(step) ==> job[i].StageAt(c, step.side, step.g, step.p) < b
    ensures IsWorkerStep(step) ==> JobReached(c, job, job[i].StageAt(c, step.side, step.g, step.p))
    ensures i == 0 ==> Patient(job[0], hold, step)
  {
    var side, g, p;
    i, side, g, p := JobLowest(c, job, b);
    NothingHeldBack(c, job[i]);
    step := PairCanStep(c, job[i], side, g, p, if i == 0 then hold else NoHold());
    OpenIrrelevant(c, job[i], RestReached(c, job, i, StepStage(c, job[i], step)), step);
  }

  /** The same with nothing held back. */
  lemma JobCanStepFreely(c: Config, job: seq<Pair>, b: nat) returns (i: nat, step: Step)
    requires c.Valid() && JobInv(c, job) && JobShape(c, job)
    requires !JobReached(c, job, b) && b <= 4 * c.Phases() + 1
    ensures JobEnabled(c, job, i, step)
    ensures IsWorkerStep(step) ==> job[i].StageAt(c, step.side, step.g, step.p) < b
    ensures IsWorkerStep(step) ==> JobReached(c, job, job[i].StageAt(c, step.side, step.g, step.p))
  {
    NothingHeldBack(c, job[0]);
    i, step := JobCanStepBelow(c, job, b, NoHold());
  }

  /** Deadlock freedom: in every run, whatever the prefilled work and the number of message sizes, until
      all workers are done some send, take, dispatch, repost, barrier or reset step is enabled. */
  lemma DeadlockFreedom(c: Config, n: nat, run: seq<seq<Pair>>) returns (i: nat, step: Step)
    requires c.Valid() && IsRun(c, n, run)
    requires JobShape(c, run[|run| - 1]) && !JobDone(c, run[|run| - 1])
    ensures JobEnabled(c, run[|run| - 1], i, step)
  {
    RunInv(c, n, run, |run| - 1);
    i, step := JobCanStepFreely(c, run[|run| - 1], 4 * c.Phases() + 1);
  }

  // ---- Termination ----

  function JobMeasures(c: Config, job: seq<Pair>): (r: seq<nat>)
    ensures |r| == |job|
  {
    seq(|job|, i requires 0 <= i < |job| => PairMeasure(c, job[i]))
  }

  function JobMeasure(c: Config, job: seq<Pair>): nat {
    Sum(JobMeasures(c, job))
  }

  lemma JobPutMeasure(c: Config, job: seq<Pair>, i: nat, s: Pair)
    requires i < |job| && PairMeasure(c, s) < PairMeasure(c, job[i])
    ensures JobMeasure(c, job[i := s]) < JobMeasure(c, job)
  {
    assert JobMeasures(c, job[i := s]) == JobMeasures(c, job)[i := PairMeasure(c, s)];
    SumUpdate(JobMeasures(c, job), i, PairMeasure(c, s));
  }

  lemma JobStepDecreases(c: Config, job: seq<Pair>, i: nat, step: Step)
    requires c.Valid() && JobInv(c, job) && JobEnabled(c, job, i, step)
    ensures JobMeasure(c, JobApply(c, job, i, step)) < JobMeasure(c, job)
  {
    var open := RestReached(c, job, i, StepStage(c, job[i], step));
    StepDecreases(c, job[i], open, step);
    JobPutMeasure(c, job, i, Apply(c, job[i], open, step));
  }

  lemma JobNextDecreases(c: Config, job: seq<Pair>, job': seq<Pair>)
    requires c.Valid() && JobInv(c, job) && JobNext(c, job, job')
    ensures JobMeasure(c, job') < JobMeasure(c, job)
  {
    var i, step := JobNextStep(c, job, job');
    JobStepDecreases(c, job, i, step);
  }

  /** No run is longer than the work there is: every schedule terminates. */
  lemma {:induction false} RunsAreFinite(c: Config, n: nat, run: seq<seq<Pair>>, k: nat)
    requires c.Valid() && IsRun(c, n, run) && k < |run|
    ensures k + JobMeasure(c, run[k]) <= JobMeasure(c, InitJob(c, n))
  {
    if k > 0 {
      var j := k - 1;
      RunsAreFinite(c, n, run, j);
      RunInv(c, n, run, j);
      assert JobNext(c, run[j], run[j + 1]);
      JobNextDecreases(c, run[j], run[k]);
    }
  }

  ghost predicate CanMove(c: Config, job: seq<Pair>)
    requires JobShape(c, job)
  {
    exists i: nat, step: Step :: JobEnabled(c, job, i, step)
  }

  /** A run that cannot be continued has finished: every worker of every process is done. */
  lemma MaximalRunsFinish(c: Config, n: nat, run: seq<seq<Pair>>)
    requires c.Valid() && IsRun(c, n, run)
    requires JobShape(c, run[|run| - 1]) && !CanMove(c, run[|run| - 1])
    ensures JobDone(c, run[|run| - 1])
  {
    var job := run[|run| - 1];
    if !JobDone(c, job) {
      var i, step := DeadlockFreedom(c, n, run);
    }
  }

  // ---- Resets ----

  /** In every state of every run without prefilled work, over all message sizes, a process whose
      thread 0 stands at reset_counters is quiescent. With prefilled work the same holds of the two
      resets of the first message size, and of every reset after a warm-up if the measured loops have
      no iterations. */
  lemma ResetSafety(c: Config, n: nat, run: seq<seq<Pair>>, k: nat, i: nat, side: Side)
    requires c.Valid() && IsRun(c, n, run) && k < |run| && i < |run[k]|
    requires run[k][i].Shape(c) && AtReset(c, run[k][i], side)
    requires var st := run[k][i].StageAt(c, side, 0, 0);
             c.prefill == 0 || st < 8 || (c.total == 0 && st % 8 == 4)
    ensures Quiescent(c, run[k][i], side)
  {
    RunInv(c, n, run, k);
    ResetStateSafe(c, run[k][i], side);
  }

  lemma ResetStateSafe(c: Config, s: Pair, side: Side)
    requires c.Valid() && Inv(c, s) && AtReset(c, s, side)
    requires var st := s.StageAt(c, side, 0, 0); c.prefill == 0 || st < 8 || (c.total == 0 && st % 8 == 4)
    ensures Quiescent(c, s, side)
  {
    ResetInScope(c, s, side);
    if s.StageAt(c, side, 0, 0) > 0 {
      PlainBefore(c, s.StageAt(c, side, 0, 0));
    }
    ResetIsSafe(c, s, side);
  }

  /** The loop in front of such a reset has no prefilled work. */
  lemma PlainBefore(c: Config, stage: nat)
    requires PointAt(c, stage).ResetPoint? && stage > 0
    requires c.prefill == 0 || stage < 8 || stage % 8 == 4
    ensures c.Prefill(PhaseOf(c, stage)) == 0
  {
  }

  /** While thread 0 stands at a reset of the first size, nobody is past that size. */
  lemma ResetInScope(c: Config, s: Pair, side: Side)
    requires c.Valid() && Inv(c, s) && AtReset(c, s, side)
    requires c.prefill == 0 || s.StageAt(c, side, 0, 0) < 8 || c.total == 0
    ensures InScope(c, s)
  {
    BarrierAhead(c, s, side, side.Peer(), 0, 0);
  }

  ghost predicate ResetsAlwaysQuiescent(c: Config, n: nat)
    requires c.Valid()
  {
    forall run: seq<seq<Pair>>, k: nat, i: nat, side: Side |
      IsRun(c, n, run) && k < |run| && i < |run[k]| && run[k][i].Shape(c) && AtReset(c, run[k][i], side) ::
        Quiescent(c, run[k][i], side)
  }

  /** Both processes through the measured loop of the first size, thread 0 at the next reset: with
      prefilled work the process is not quiescent. */
  lemma PrefillLeftOver(c: Config, s: Pair, side: Side)
    requires c.Valid() && Inv(c, s) && InScope(c, s) && c.prefill > 0
    requires Phase(c, s, side) == 1 && s.Reached(c, 8)
    ensures !Quiescent(c, s, side)
  {
    if Quiescent(c, s, side) {
      assert HalfQuiet(c, s.Of(side)[0], 0);
      assert s.Reached(c, c.LoopStage(1) + 1);
      ExactCompletion(c, s, side, 0, 0);
    }
  }

  predicate FirstSizeOnly(c: Config, job: seq<Pair>)
    requires c.Valid() && JobShape(c, job)
  {
    forall i | 0 <= i < |job| :: Phase(c, job[i], Sender) <= 1 && Phase(c, job[i], Receiver) <= 1
  }

  lemma SideStaysInFirstSize(c: Config, s: Pair, open: bool, step: Step, side: Side)
    requires c.Valid() && s.Shape(c) && Enabled(c, s, open, step) && Phase(c, s, side) <= 1
    requires IsWorkerStep(step) ==> s.StageAt(c, step.side, step.g, step.p) < 8
    ensures Apply(c, s, open, step).Shape(c) && Phase(c, Apply(c, s, open, step), side) <= 1
  {
    if IsLeadReset(step) && step.side == side {
      LeadResetPhase(c, s, open, step);
    } else {
      PhaseKept(c, s, open, step, side);
    }
  }

  lemma PairStaysInFirstSize(c: Config, s: Pair, open: bool, step: Step)
    requires c.Valid() && s.Shape(c) && Enabled(c, s, open, step)
    requires Phase(c, s, Sender) <= 1 && Phase(c, s, Receiver) <= 1
    requires IsWorkerStep(step) ==> s.StageAt(c, step.side, step.g, step.p) < 8
    ensures Apply(c, s, open, step).Shape(c)
    ensures Phase(c, Apply(c, s, open, step), Sender) <= 1 && Phase(c, Apply(c, s, open, step), Receiver) <= 1
  {
    SideStaysInFirstSize(c, s, open, step, Sender);
    SideStaysInFirstSize(c, s, open, step, Receiver);
  }

  lemma StepStaysInFirstSize(c: Config, job: seq<Pair>, i: nat, step: Step)
    requires c.Valid() && JobShape(c, job) && JobEnabled(c, job, i, step) && FirstSizeOnly(c, job)
    requires IsWorkerStep(step) ==> job[i].StageAt(c, step.side, step.g, step.p) < 8
    ensures JobShape(c, JobApply(c, job, i, step)) && FirstSizeOnly(c, JobApply(c, job, i, step))
  {
    PairStaysInFirstSize(c, job[i], RestReached(c, job, i, StepStage(c, job[i], step)), step);
  }

  /** One more step of a job that has not reached the second size, staying before it. */
  lemma StepTowardsSecondSize(c: Config, job: seq<Pair>) returns (next: seq<Pair>)
    requires c.Valid() && JobInv(c, job) && JobShape(c, job) && FirstSizeOnly(c, job)
    requires c.sizes >= 2 && !JobReached(c, job, 8)
    ensures JobNext(c, job, next) && JobMeasure(c, next) < JobMeasure(c, job)
    ensures JobShape(c, next) && FirstSizeOnly(c, next)
  {
    var i, step := JobCanStepFreely(c, job, 8);
    StepStaysInFirstSize(c, job, i, step);
    JobStepDecreases(c, job, i, step);
    next := JobApply(c, job, i, step);
  }

  /** Run the job as far as possible without passing the first reset of the second size. */
  lemma {:induction false} RunToSecondSize(c: Config, n: nat, run: seq<seq<Pair>>, last: seq<Pair>)
    returns (longer: seq<seq<Pair>>)
    requires c.Valid() && IsRun(c, n, run) && c.sizes >= 2 && last == run[|run| - 1]
    requires JobShape(c, last) && FirstSizeOnly(c, last)
    ensures IsRun(c, n, longer)
    ensures JobShape(c, longer[|longer| - 1]) && FirstSizeOnly(c, longer[|longer| - 1])
    ensures JobReached(c, longer[|longer| - 1], 8)
    decreases JobMeasure(c, last)
  {
    if JobReached(c, last, 8) {
      longer := run;
    } else {
      RunInv(c, n, run, |run| - 1);
      var next := StepTowardsSecondSize(c, last);
      ExtendRun(c, n, run, next);
      longer := RunToSecondSize(c, n, run + [next], next);
    }
  }

  lemma DirtyResetExists(c: Config, n: nat) returns (run: seq<seq<Pair>>)
    requires c.Valid() && c.prefill > 0 && c.sizes >= 2 && n > 0
    ensures IsRun(c, n, run)
    ensures var s := run[|run| - 1];
            |s| > 0 && s[0].Shape(c) && AtReset(c, s[0], Sender) && !Quiescent(c, s[0], Sender)
  {
    InitInv(c);
    run := RunToSecondSize(c, n, [InitJob(c, n)], InitJob(c, n));
    RunInv(c, n, run, |run| - 1);
    var s := run[|run| - 1][0];
    assert s.Reached(c, 8);
    assert s.StageAt(c, Sender, 0, 0) >= 8;
    PrefillLeftOver(c, s, Sender);
  }

  /** Exactly when every reset of every run is safe: without prefilled work, or with at most one
      message size. */
  lemma ResetSafetyExact(c: Config, n: nat)
    requires c.Valid() && n > 0
    ensures ResetsAlwaysQuiescent(c, n) <==> c.prefill == 0 || c.sizes <= 1
  {
    if c.prefill == 0 || c.sizes <= 1 {
      forall run: seq<seq<Pair>>, k: nat, i: nat, side: Side |
        IsRun(c, n, run) && k < |run| && i < |run[k]| && run[k][i].Shape(c) && AtReset(c, run[k][i], side)
        ensures Quiescent(c, run[k][i], side)
      {
        ResetSafety(c, n, run, k, i, side);
      }
    } else {
      var run := DirtyResetExists(c, n);
      var k := |run| - 1;
      assert AtReset(c, run[k][0], Sender) && !Quiescent(c, run[k][0], Sender);
    }
  }

  // ---- Per-run forms of conservation, completion and supply ----

  /** In every state of every run, over all message sizes: posted, unpolled and not yet reposted
      receives make 2048. */
  lemma RunReceivesConstant(c: Config, n: nat, run: seq<seq<Pair>>, k: nat, i: nat, side: Side, g: nat)
    requires c.Valid() && IsRun(c, n, run) && k < |run| && i < |run[k]| && g < c.rx && run[k][i].Shape(c)
    ensures var h := run[k][i].Of(side)[g];
            h.posted + h.cq + h.polled + HeldCount(h) + h.spent == PREPOSTED
  {
    RunInv(c, n, run, k);
    assert SupplyOk(run[k][i].Of(side)[g]);
  }

  ghost predicate JobLimited(c: Config, job: seq<Pair>)
    requires c.Valid()
  {
    forall i | 0 <= i < |job| :: job[i].Shape(c) && Limited(c, job[i])
  }

  lemma JobStepLimited(c: Config, job: seq<Pair>, i: nat, step: Step)
    requires c.Valid() && JobInv(c, job) && JobLimited(c, job) && JobEnabled(c, job, i, step)
    ensures JobLimited(c, JobApply(c, job, i, step))
  {
    StepKeepsLimited(c, job[i], RestReached(c, job, i, StepStage(c, job[i], step)), step);
  }

  /** What is carried over stays within the limit in every state of every run. */
  lemma {:induction false} RunLimited(c: Config, n: nat, run: seq<seq<Pair>>, k: nat)
    requires c.Valid() && IsRun(c, n, run) && k < |run|
    ensures JobLimited(c, run[k])
  {
    if k == 0 {
      InitLimited(c);
    } else {
      var j := k - 1;
      RunLimited(c, n, run, j);
      RunInv(c, n, run, j);
      assert JobNext(c, run[j], run[j + 1]);
      var i, step := JobNextStep(c, run[j], run[k]);
      JobStepLimited(c, run[j], i, step);
    }
  }

  /** In every state of every run, over all message sizes: if w(2P * sizes + 1) + 16 <= 2048 no message
      on the wire lacks a posted receive. */
  lemma RunReceiveSupply(c: Config, n: nat, run: seq<seq<Pair>>, k: nat, i: nat, side: Side, g: nat)
    requires c.Valid() && IsRun(c, n, run) && k < |run| && i < |run[k]| && g < c.rx && run[k][i].Shape(c)
    requires 2 * (c.sizes * (c.w * c.prefill)) + c.w + POLL_BATCH <= PREPOSTED
    ensures run[k][i].Of(side)[g].wire > 0 ==> run[k][i].Of(side)[g].posted > 0
  {
    RunInv(c, n, run, k);
    RunLimited(c, n, run, k);
    ReceiveSupply(c, run[k][i], side, g);
  }

  /** In every state of every run, for one progress thread: the tokens it holds and those its workers
      took are the prefilled work, what was sent to it in its phase, and what was carried over. That is,
      with what may still arrive late, at most the prefilled work of the earlier phases, and nothing
      while in scope. */
  lemma RunHalfTokens(c: Config, n: nat, run: seq<seq<Pair>>, k: nat, i: nat, side: Side, g: nat) returns (carried: nat)
    requires c.Valid() && IsRun(c, n, run) && k < |run| && i < |run[k]| && g < c.rx && run[k][i].Shape(c)
    ensures var h, peer, q := run[k][i].Of(side)[g], run[k][i].Of(side.Peer())[g].workers, Phase(c, run[k][i], side);
            && TokensAt(h) + Sum(TakenAll(c, side, h.workers, q))
               == c.w * c.Prefill(q) + Sum(SentAll(c, side.Peer(), peer, q)) + carried
            && carried + Debt(c, side.Peer(), peer, q) <= Limit(c, q)
            && (InScope(c, run[k][i]) ==> carried == 0)
  {
    RunInv(c, n, run, k);
    RunLimited(c, n, run, k);
    carried := HalfCarries(c, run[k][i], side, g);
  }

  lemma HalfCarries(c: Config, s: Pair, side: Side, g: nat) returns (carried: nat)
    requires c.Valid() && Inv(c, s) && Limited(c, s) && g < c.rx
    ensures var h, peer, q := s.Of(side)[g], s.Of(side.Peer())[g].workers, Phase(c, s, side);
            && TokensAt(h) + Sum(TakenAll(c, side, h.workers, q))
               == c.w * c.Prefill(q) + Sum(SentAll(c, side.Peer(), peer, q)) + carried
            && carried + Debt(c, side.Peer(), peer, q) <= Limit(c, q)
            && (InScope(c, s) ==> carried == 0)
  {
    var h, peer, q := s.Of(side)[g], s.Of(side.Peer())[g].workers, Phase(c, s, side);
    assert HalfLimited(c, s, side, g);
    var x: Excess :| WithinLimit(c, s, side, g, x);
    HalfTokens(c, h, peer, side, g, q, x);
    carried := Total(x);
    if InScope(c, s) {
      assert HalfAtOk(c, s, side, g, NoExcess(c));
      HalfTokens(c, h, peer, side, g, q, NoExcess(c));
      NothingInTotal(c);
    }
  }

  /** In every state of every run in which both processes are in the same phase: the tokens of a group
      are the prefilled work of both sides, the waiting senders, and what was carried over, which is at
      most the prefilled work of the earlier phases and nothing while in scope. */
  lemma RunTokenConservation(c: Config, n: nat, run: seq<seq<Pair>>, k: nat, i: nat, g: nat) returns (carried: nat)
    requires c.Valid() && IsRun(c, n, run) && k < |run| && i < |run[k]| && g < c.rx && run[k][i].Shape(c)
    requires Phase(c, run[k][i], Sender) == Phase(c, run[k][i], Receiver)
    ensures var s, q := run[k][i], Phase(c, run[k][i], Sender);
            && TokensAt(s.snd[g]) + TokensAt(s.rcv[g]) + Sum(MidAll(c, s.rcv[g].workers, q))
               == 2 * (c.w * c.Prefill(q)) + carried + Sum(MidAll(c, s.snd[g].workers, q))
            && carried <= 2 * Limit(c, q) && (InScope(c, s) ==> carried == 0)
  {
    var s := run[k][i];
    RunInv(c, n, run, k);
    if InScope(c, s) {
      TokenConservation(c, s, g);
      carried := 0;
    } else {
      RunLimited(c, n, run, k);
      carried := CarriedTokens(c, s, g);
    }
  }

  lemma CarriedTokens(c: Config, s: Pair, g: nat) returns (carried: nat)
    requires c.Valid() && Inv(c, s) && Limited(c, s) && g < c.rx && Phase(c, s, Sender) == Phase(c, s, Receiver)
    ensures var q := Phase(c, s, Sender);
            && TokensAt(s.snd[g]) + TokensAt(s.rcv[g]) + Sum(MidAll(c, s.rcv[g].workers, q))
               == 2 * (c.w * c.Prefill(q)) + carried + Sum(MidAll(c, s.snd[g].workers, q))
            && carried <= 2 * Limit(c, q)
  {
    assert HalfLimited(c, s, Sender, g) && HalfLimited(c, s, Receiver, g);
    var x: Excess :| WithinLimit(c, s, Sender, g, x);
    var y: Excess :| WithinLimit(c, s, Receiver, g, y);
    GroupTokens(c, s, g, x, y);
    DebtIsNat(c, s, Sender, g, Phase(c, s, Sender));
    DebtIsNat(c, s, Receiver, g, Phase(c, s, Sender));
    carried := Total(x) + Total(y);
  }

  /** In every state of every run: if both processes of a pair are through a loop and a progress thread
      has delivered everything, each of its workers got exactly its iterations' worth and its share of
      what was carried over, its counter shows the prefill and that share, and the cursor is that far
      from where the reset left it. In scope nothing was carried over and the cursor is home. */
  lemma RunExactCompletion(c: Config, n: nat, run: seq<seq<Pair>>, k: nat, i: nat, side: Side, g: nat, p: nat)
    returns (x: Excess)
    requires c.Valid() && IsRun(c, n, run) && k < |run| && i < |run[k]| && g < c.rx && p < c.w
    requires run[k][i].Shape(c) && run[k][i].Reached(c, c.LoopStage(Phase(c, run[k][i], side)) + 1)
    requires InFlight(run[k][i].Of(side)[g]) == 0 && run[k][i].Of(side)[g].held.None?
    ensures |x.counts| == c.w && Total(x) <= Limit(c, Phase(c, run[k][i], side))
    ensures var q, h := Phase(c, run[k][i], side), run[k][i].Of(side)[g];
            var got := c.Iters(q) + ShareFrom(x.start, x.wire, c.w, p);
            && (x.start + h.picks + c.w - 1 - p) / c.w == (x.start + c.w - 1 - p) / c.w + got
            && h.syncs[p] + c.Iters(q) == c.Prefill(q) + got + x.counts[p]
            && h.cursor == WorkerId(c.rx, g, (x.start + x.wire) % c.w)
    ensures InScope(c, run[k][i]) ==> x == NoExcess(c)
  {
    var s := run[k][i];
    RunInv(c, n, run, k);
    if InScope(c, s) {
      x := NoExcess(c);
      NothingInTotal(c);
      assert HalfAtOk(c, s, side, g, x);
    } else {
      RunLimited(c, n, run, k);
      assert HalfLimited(c, s, side, g);
      x :| WithinLimit(c, s, side, g, x);
      DebtIsNat(c, s, side.Peer(), g, Phase(c, s, side));
    }
    CompletionWith(c, s, side, g, p, x);
    ShareFromClosedForm(x.start, s.Of(side)[g].picks, c.w, p);
  }
}

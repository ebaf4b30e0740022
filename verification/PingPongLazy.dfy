/** Progress threads that deliver only what a loop needs. In group 0 of the first pair a message is
    taken off the wire only while fewer than w * (iterations - prefill) of them arrived in the phase.
    Nobody starves, all counters are down to 0 at the next reset, and the rest stays on the wire: over
    the message sizes it adds up to the limit of what can be carried over. */
module PingPongLazy {
  import opened Sums
  import opened PingPong
  import opened PingPongSafety
  import opened PingPongProgress
  import opened PingPongTokens
  import opened PingPongSupply
  import opened PingPongRuns

  /** The phase the run goes for: the last measured one, or the first if the prefilled work suffices
      for a whole loop. */
  function LastPhase(c: Config): nat {
    if c.prefill <= c.total && c.sizes > 0 then 2 * c.sizes - 1 else 1
  }

  /** Everybody at the start of its loop. */
  function Goal(c: Config): nat { c.LoopStage(LastPhase(c)) }

  /** How many messages a half lets in during phase q: what its workers need beyond the prefill. */
  function Quota(c: Config, q: nat): nat {
    if q < LastPhase(c) && c.Prefill(q) <= c.Iters(q) then c.w * (c.Iters(q) - c.Prefill(q)) else 0
  }

  lemma QuotaNeeded(c: Config, q: nat)
    requires q < LastPhase(c)
    ensures Quota(c, q) + c.w * c.Prefill(q) == c.w * c.Iters(q)
  {
    assert c.Prefill(q) <= c.Iters(q);
    assert c.w * c.Iters(q) == c.w * (c.Iters(q) - c.Prefill(q)) + c.w * c.Prefill(q);
  }

  function Arrived(h: Half): nat { h.cq + h.polled + h.picks }

  /** Nobody has started the last loop. */
  predicate Fresh(c: Config, s: Pair)
    requires s.Shape(c)
  {
    forall side: Side, g: nat, p: nat | g < c.rx && p < c.w ::
      var w := s.WorkerAt(c, side, g, p); w.stage <= Goal(c) && (w.stage == Goal(c) ==> w.iter == 0 && !w.mid)
  }

  /** Books of group 0 with all that can be carried over on the wire. */
  predicate FullCarry(c: Config, s: Pair, side: Side, x: Excess)
    requires c.Valid() && s.Shape(c)
  {
    var q := Phase(c, s, side);
    && HalfAtOk(c, s, side, 0, x) && Sum(x.counts) == 0
    && x.wire + Debt(c, side.Peer(), s.Of(side.Peer())[0].workers, q) >= Limit(c, q)
  }

  ghost predicate CarriesAll(c: Config, s: Pair, side: Side)
    requires c.Valid() && s.Shape(c)
  {
    exists x: Excess :: FullCarry(c, s, side, x)
  }

  predicate WithinQuota(c: Config, s: Pair, side: Side)
    requires c.Valid() && s.Shape(c)
  {
    var h := s.Of(side)[0];
    Arrived(h) <= Quota(c, Phase(c, s, side)) && (h.picks == 0 ==> h.held.None?)
  }

  ghost predicate Lazy(c: Config, s: Pair)
    requires c.Valid()
  {
    && Inv(c, s) && Fresh(c, s)
    && WithinQuota(c, s, Sender) && WithinQuota(c, s, Receiver)
    && CarriesAll(c, s, Sender) && CarriesAll(c, s, Receiver)
  }

  // ---- What is held back is covered ----

  function LeftOnWire(c: Config, s: Pair, side: Side): nat
    requires c.Valid() && s.Shape(c)
  {
    var h := s.Of(side)[0];
    if Arrived(h) < Quota(c, Phase(c, s, side)) then 0 else h.wire
  }

  function LazyHold(c: Config, s: Pair): Hold
    requires c.Valid() && s.Shape(c)
  {
    Hold(LeftOnWire(c, s, Sender), LeftOnWire(c, s, Receiver))
  }

  lemma FreshPhase(c: Config, s: Pair, side: Side)
    requires c.Valid() && s.Shape(c) && Fresh(c, s)
    ensures Phase(c, s, side) <= LastPhase(c)
  {
    assert s.WorkerAt(c, side, 0, 0).stage <= Goal(c);
  }

  lemma SentBeforeLast(c: Config, s: Pair, side: Side, q: nat)
    requires c.Valid() && s.Shape(c) && WorkersOk(c, s) && q < LastPhase(c)
    ensures Sum(SentAll(c, side, s.Of(side)[0].workers, q)) <= Quota(c, q) + c.w * c.Prefill(q)
  {
    DebtIsNat(c, s, side, 0, q + 1);
    QuotaNeeded(c, q);
  }

  lemma NothingSentInLast(c: Config, s: Pair, side: Side)
    requires c.Valid() && s.Shape(c) && Fresh(c, s)
    ensures Sum(SentAll(c, side, s.Of(side)[0].workers, LastPhase(c))) == 0
  {
    var ws := s.Of(side)[0].workers;
    forall p | 0 <= p < c.w ensures Sent(c, side, ws[p], LastPhase(c)) == 0 {
      assert s.WorkerAt(c, side, 0, p) == ws[p];
    }
    SumAtMost(SentAll(c, side, ws, LastPhase(c)), 0);
  }

  /** In a phase at most the quota and the prefill is sent; in the last one nothing yet. */
  lemma SentWithinQuota(c: Config, s: Pair, side: Side, q: nat)
    requires c.Valid() && s.Shape(c) && WorkersOk(c, s) && Fresh(c, s) && q <= LastPhase(c)
    ensures Sum(SentAll(c, side, s.Of(side)[0].workers, q)) <= Quota(c, q) + c.w * c.Prefill(q)
  {
    if q < LastPhase(c) {
      SentBeforeLast(c, s, side, q);
    } else {
      NothingSentInLast(c, s, side);
    }
  }

  lemma LeftIsCovered(c: Config, s: Pair, side: Side, x: Excess)
    requires c.Valid() && s.Shape(c) && WorkersOk(c, s) && Fresh(c, s) && HalfAtOk(c, s, side, 0, x)
    ensures LeftOnWire(c, s, side) <= x.wire + c.w * c.Prefill(Phase(c, s, side))
  {
    var q := Phase(c, s, side);
    FreshPhase(c, s, side);
    SentWithinQuota(c, s, side.Peer(), q);
    if Arrived(s.Of(side)[0]) >= Quota(c, q) {
      CoveredLeft(Sum(SentAll(c, side.Peer(), s.Of(side.Peer())[0].workers, q)), x.wire, s.Of(side)[0], Quota(c, q), c.w * c.Prefill(q));
    }
  }

  lemma CoveredLeft(sent: nat, carried: nat, h: Half, quota: nat, pre: nat)
    requires sent + carried == InFlight(h) + h.picks && sent <= quota + pre && Arrived(h) >= quota
    ensures h.wire <= carried + pre
  {
  }

  lemma LazyMayHoldAt(c: Config, s: Pair, side: Side, x: Excess)
    requires c.Valid() && s.Shape(c) && WorkersOk(c, s) && Fresh(c, s) && HalfAtOk(c, s, side, 0, x)
    ensures MayHoldAt(c, s, side, LeftOnWire(c, s, side))
  {
    LeftIsCovered(c, s, side, x);
    assert x.wire >= Uncovered(c, Phase(c, s, side), LeftOnWire(c, s, side));
  }

  lemma LazyMayHold(c: Config, s: Pair)
    requires c.Valid() && Lazy(c, s)
    ensures MayHold(c, s, LazyHold(c, s))
  {
    var x: Excess :| FullCarry(c, s, Sender, x);
    var y: Excess :| FullCarry(c, s, Receiver, y);
    LazyMayHoldAt(c, s, Sender, x);
    LazyMayHoldAt(c, s, Receiver, y);
  }

  // ---- A patient step keeps it ----

  lemma FreshKept(c: Config, s: Pair, open: bool, step: Step)
    requires c.Valid() && s.Shape(c) && Fresh(c, s) && Enabled(c, s, open, step)
    requires IsWorkerStep(step) ==> s.StageAt(c, step.side, step.g, step.p) < Goal(c)
    ensures Apply(c, s, open, step).Shape(c) && Fresh(c, Apply(c, s, open, step))
  {
    ApplyWorkers(c, s, open, step);
    var s' := Apply(c, s, open, step);
    forall side: Side, g: nat, p: nat | g < c.rx && p < c.w
      ensures var w := s'.WorkerAt(c, side, g, p); w.stage <= Goal(c) && (w.stage == Goal(c) ==> w.iter == 0 && !w.mid)
    {
      var w := s.WorkerAt(c, side, g, p);
      assert w.stage <= Goal(c) && (w.stage == Goal(c) ==> w.iter == 0 && !w.mid);
    }
  }

  /** Any step but the side's own reset: what is carried over and owed stays the same. */
  lemma CarriesAllKept(c: Config, s: Pair, open: bool, step: Step, side: Side)
    requires c.Valid() && s.Shape(c) && WorkersOk(c, s) && BarrierOk(c, s) && Enabled(c, s, open, step)
    requires CarriesAll(c, s, side) && !(IsLeadReset(step) && step.side == side)
    ensures Apply(c, s, open, step).Shape(c) && CarriesAll(c, Apply(c, s, open, step), side)
  {
    var x: Excess :| FullCarry(c, s, side, x);
    FullCarryKept(c, s, open, step, side, x);
  }

  lemma FullCarryKept(c: Config, s: Pair, open: bool, step: Step, side: Side, x: Excess)
    requires c.Valid() && s.Shape(c) && WorkersOk(c, s) && BarrierOk(c, s) && Enabled(c, s, open, step)
    requires FullCarry(c, s, side, x) && !(IsLeadReset(step) && step.side == side)
    ensures Apply(c, s, open, step).Shape(c)
    ensures FullCarry(c, Apply(c, s, open, step), side, if side != step.side && 0 == step.g then ExcessAfter(c, s, step, x) else x)
  {
    HalfKept(c, s, open, step, side, 0, x);
    PhaseKept(c, s, open, step, side);
    DebtKept(c, s, open, step, side, 0, x);
  }

  lemma ArrivedMoves(c: Config, s: Pair, open: bool, step: Step, side: Side)
    requires c.Valid() && s.Shape(c) && Enabled(c, s, open, step) && !(IsLeadReset(step) && step.side == side)
    ensures Apply(c, s, open, step).Shape(c)
    ensures var h, h' := s.Of(side)[0], Apply(c, s, open, step).Of(side)[0];
            && Arrived(h') == Arrived(h) + (if step.Arrive? && step.side == side && step.g == 0 then 1 else 0)
            && (h'.picks == 0 ==> h.picks == 0 && (h.held.None? ==> h'.held.None?))
  {
    ApplyShape(c, s, open, step);
  }

  lemma WithinQuotaKept(c: Config, s: Pair, open: bool, step: Step, side: Side)
    requires c.Valid() && s.Shape(c) && WithinQuota(c, s, side) && Enabled(c, s, open, step)
    requires Patient(s, LazyHold(c, s), step) && !(IsLeadReset(step) && step.side == side)
    ensures Apply(c, s, open, step).Shape(c) && WithinQuota(c, Apply(c, s, open, step), side)
  {
    PhaseKept(c, s, open, step, side);
    ArrivedMoves(c, s, open, step, side);
  }

  // ---- So does a reset ----

  /** All workers through the loop: exactly the quota was dispatched and all of it taken. */
  lemma QuotaUsedUp(c: Config, h: Half, peer: seq<Worker>, side: Side, q: nat, x: Excess)
    requires c.Valid() && HalfShape(c, h) && |x.counts| == c.w && HalfOk(c, h, peer, side, 0, q, x) && Sum(x.counts) == 0
    requires forall p: nat | p < c.w :: Taken(c, side, h.workers[p], q) == c.Iters(q)
    requires q < LastPhase(c) && Arrived(h) <= Quota(c, q)
    ensures h.cq == 0 && h.polled == 0 && h.held.None? && h.picks == Quota(c, q) && Sum(h.syncs) == 0
  {
    HalfTokens(c, h, peer, side, 0, q, x);
    SumAtLeast(TakenAll(c, side, h.workers, q), c.Iters(q));
    QuotaNeeded(c, q);
  }

  /** Thread 0 at the reset that ends phase q: everybody has sent all of the phase before. */
  lemma NothingOwed(c: Config, s: Pair, side: Side)
    requires c.Valid() && s.Shape(c) && BarrierOk(c, s) && AtReset(c, s, side) && s.StageAt(c, side, 0, 0) > 0
    ensures Debt(c, side.Peer(), s.Of(side.Peer())[0].workers, Phase(c, s, side)) == 0
  {
    var q, ws := Phase(c, s, side), s.Of(side.Peer())[0].workers;
    if q > 0 {
      var b := 4 * q + 1;
      assert PointAt(c, b).ProcBarrier?;
      assert !NotPast(c, s, b);
      forall p | 0 <= p < c.w ensures Sent(c, side.Peer(), ws[p], q - 1) == c.Iters(q - 1) {
        assert s.StageAt(c, side.Peer(), 0, p) >= b;
      }
      PaidOff(c, side.Peer(), ws, q);
    }
  }

  lemma PaidOff(c: Config, side: Side, ws: seq<Worker>, q: nat)
    requires q > 0 && |ws| == c.w && forall p | 0 <= p < c.w :: Sent(c, side, ws[p], q - 1) == c.Iters(q - 1)
    ensures Debt(c, side, ws, q) == 0
  {
    SumAtLeast(SentAll(c, side, ws, q - 1), c.Iters(q - 1));
    SumAtMost(SentAll(c, side, ws, q - 1), c.Iters(q - 1));
  }

  /** What a later reset finds: nothing but the wire, and all of the limit on it or owed. */
  lemma LaterResetFinds(c: Config, s: Pair, side: Side, x: Excess)
    requires c.Valid() && s.Shape(c) && WorkersOk(c, s) && BarrierOk(c, s) && WithinQuota(c, s, side) && FullCarry(c, s, side, x)
    requires AtReset(c, s, side) && s.StageAt(c, side, 0, 0) > 0 && Phase(c, s, side) < LastPhase(c)
    ensures var h, q := s.Of(side)[0], Phase(c, s, side);
            && h.cq == 0 && h.polled == 0 && Undisturbed(c, h)
            && h.wire + Debt(c, side.Peer(), s.Of(side.Peer())[0].workers, q + 1) >= Limit(c, q + 1)
  {
    var h, q, peer := s.Of(side)[0], Phase(c, s, side), s.Of(side.Peer())[0].workers;
    ResetAfterLoop(c, s, side);
    forall p: nat | p < c.w ensures Taken(c, side, h.workers[p], q) == c.Iters(q) {
      LoopOver(c, s, side, 0, p, q);
    }
    QuotaUsedUp(c, h, peer, side, q, x);
    forall p | 0 <= p < c.w ensures h.syncs[p] == 0 {
      ElementWithinSum(h.syncs, p);
    }
    NothingOwed(c, s, side);
    QuotaNeeded(c, q);
    LimitStep(c, q);
  }

  /** The very first reset finds nothing at all. */
  lemma FirstResetFinds(c: Config, s: Pair, side: Side)
    requires c.Valid() && Inv(c, s) && AtReset(c, s, side) && s.StageAt(c, side, 0, 0) == 0
    ensures InFlight(s.Of(side)[0]) == 0 && Undisturbed(c, s.Of(side)[0])
    ensures Debt(c, side.Peer(), s.Of(side.Peer())[0].workers, 0) == Limit(c, 0)
  {
    BarrierAhead(c, s, side, side.Peer(), 0, 0);
    FirstResetSettled(c, s, side, 0);
  }

  lemma EmptyHandsCarry(c: Config, h: Half, r: Race)
    requires HalfShape(c, h) && Undisturbed(c, h) && RaceOk(c, h, r)
    ensures Sum(Carry(c, h, 0, r).counts) == 0
  {
    SumAtMost(Carry(c, h, 0, r).counts, 0);
  }

  lemma PhaseAtReset(c: Config, stage: nat)
    requires PointAt(c, stage).ResetPoint? && 0 < stage < Goal(c)
    ensures PhaseOf(c, stage) + 1 == stage / 4 && PhaseOf(c, stage) < LastPhase(c)
  {
    NextPhase(c, stage);
  }

  lemma ResetFinds(c: Config, s: Pair, side: Side, x: Excess)
    requires c.Valid() && Inv(c, s) && Fresh(c, s) && WithinQuota(c, s, side) && FullCarry(c, s, side, x)
    requires AtReset(c, s, side) && s.StageAt(c, side, 0, 0) < Goal(c)
    ensures var h, k := s.Of(side)[0], s.StageAt(c, side, 0, 0) / 4;
            && h.cq == 0 && h.polled == 0 && Undisturbed(c, h)
            && h.wire + Debt(c, side.Peer(), s.Of(side.Peer())[0].workers, k) >= Limit(c, k)
  {
    if s.StageAt(c, side, 0, 0) == 0 {
      FirstResetFinds(c, s, side);
    } else {
      PhaseAtReset(c, s.StageAt(c, side, 0, 0));
      LaterResetFinds(c, s, side, x);
    }
  }

  lemma ResetKeeps(c: Config, s: Pair, open: bool, step: Step, x: Excess)
    requires c.Valid() && Inv(c, s) && Fresh(c, s) && WithinQuota(c, s, step.side) && FullCarry(c, s, step.side, x)
    requires Enabled(c, s, open, step) && IsLeadReset(step) && s.StageAt(c, step.side, 0, 0) < Goal(c)
    ensures Apply(c, s, open, step).Shape(c)
    ensures WithinQuota(c, Apply(c, s, open, step), step.side) && CarriesAll(c, Apply(c, s, open, step), step.side)
  {
    ResetFinds(c, s, step.side, x);
    ResetDone(c, s, open, step);
  }

  lemma ResetDone(c: Config, s: Pair, open: bool, step: Step)
    requires c.Valid() && s.Shape(c) && BarrierOk(c, s) && Enabled(c, s, open, step) && IsLeadReset(step)
    requires var h, k := s.Of(step.side)[0], s.StageAt(c, step.side, 0, 0) / 4;
             && h.cq == 0 && h.polled == 0 && Undisturbed(c, h)
             && h.wire + Debt(c, step.side.Peer(), s.Of(step.side.Peer())[0].workers, k) >= Limit(c, k)
    ensures Apply(c, s, open, step).Shape(c)
    ensures WithinQuota(c, Apply(c, s, open, step), step.side) && CarriesAll(c, Apply(c, s, open, step), step.side)
  {
    var side, h := step.side, s.Of(step.side)[0];
    LeadResetPhase(c, s, open, step);
    assert RaceOk(c, h, step.races[0]);
    EmptyHandsCarry(c, h, step.races[0]);
    LeadResetHalf(c, s, open, step, 0);
    GroupStands(c, s, open, step, side.Peer(), 0);
    assert FullCarry(c, Apply(c, s, open, step), side, Carry(c, h, 0, step.races[0]));
  }

  lemma SideKept(c: Config, s: Pair, open: bool, step: Step, side: Side)
    requires c.Valid() && Inv(c, s) && Fresh(c, s) && WithinQuota(c, s, side) && CarriesAll(c, s, side)
    requires Enabled(c, s, open, step) && Patient(s, LazyHold(c, s), step)
    requires IsWorkerStep(step) ==> s.StageAt(c, step.side, step.g, step.p) < Goal(c)
    ensures Apply(c, s, open, step).Shape(c)
    ensures WithinQuota(c, Apply(c, s, open, step), side) && CarriesAll(c, Apply(c, s, open, step), side)
  {
    if IsLeadReset(step) && step.side == side {
      var x: Excess :| FullCarry(c, s, side, x);
      ResetKeeps(c, s, open, step, x);
    } else {
      WithinQuotaKept(c, s, open, step, side);
      CarriesAllKept(c, s, open, step, side);
    }
  }

  lemma StepKeepsLazy(c: Config, s: Pair, open: bool, step: Step)
    requires c.Valid() && Lazy(c, s) && Enabled(c, s, open, step) && Patient(s, LazyHold(c, s), step)
    requires IsWorkerStep(step) ==> s.StageAt(c, step.side, step.g, step.p) < Goal(c)
    ensures Lazy(c, Apply(c, s, open, step))
  {
    StepPreservesInv(c, s, open, step);
    FreshKept(c, s, open, step);
    SideKept(c, s, open, step, Sender);
    SideKept(c, s, open, step, Receiver);
  }

  // ---- The run ----

  ghost predicate JobLazy(c: Config, job: seq<Pair>)
    requires c.Valid()
  {
    |job| > 0 && JobInv(c, job) && JobShape(c, job) && Lazy(c, job[0])
  }

  lemma JobStepLazy(c: Config, job: seq<Pair>, i: nat, step: Step)
    requires c.Valid() && JobLazy(c, job) && JobEnabled(c, job, i, step)
    requires i == 0 ==> Patient(job[0], LazyHold(c, job[0]), step)
    requires IsWorkerStep(step) ==> job[i].StageAt(c, step.side, step.g, step.p) < Goal(c)
    ensures JobLazy(c, JobApply(c, job, i, step))
  {
    JobStepInv(c, job, i, step);
    if i == 0 {
      StepKeepsLazy(c, job[0], RestReached(c, job, 0, StepStage(c, job[0], step)), step);
    }
  }

  lemma LazyStep(c: Config, n: nat, run: seq<seq<Pair>>, job: seq<Pair>) returns (next: seq<Pair>)
    requires c.Valid() && IsRun(c, n, run) && job == run[|run| - 1]
    requires JobLazy(c, job) && !JobReached(c, job, Goal(c)) && c.sizes > 0
    ensures IsRun(c, n, run + [next]) && JobMeasure(c, next) < JobMeasure(c, job) && JobLazy(c, next)
  {
    LazyMayHold(c, job[0]);
    var i, step := JobCanStepBelow(c, job, Goal(c), LazyHold(c, job[0]));
    JobStepLazy(c, job, i, step);
    JobStepDecreases(c, job, i, step);
    next := JobApply(c, job, i, step);
    ExtendRun(c, n, run, next);
  }

  lemma InitLazy(c: Config, n: nat)
    requires c.Valid() && n > 0
    ensures JobLazy(c, InitJob(c, n))
  {
    InitInv(c);
    InitHalves(c);
    NothingInTotal(c);
    assert HalfAtOk(c, InitPair(c), Sender, 0, NoExcess(c)) && HalfAtOk(c, InitPair(c), Receiver, 0, NoExcess(c));
    assert FullCarry(c, InitPair(c), Sender, NoExcess(c)) && FullCarry(c, InitPair(c), Receiver, NoExcess(c));
  }

  /** Run the job lazily until everybody is at the start of the last loop. */
  lemma {:induction false} LazyRun(c: Config, n: nat, run: seq<seq<Pair>>, last: seq<Pair>)
    returns (longer: seq<seq<Pair>>)
    requires c.Valid() && IsRun(c, n, run) && last == run[|run| - 1] && JobLazy(c, last) && c.sizes > 0
    ensures IsRun(c, n, longer) && JobLazy(c, longer[|longer| - 1]) && JobReached(c, longer[|longer| - 1], Goal(c))
    decreases JobMeasure(c, last)
  {
    if JobReached(c, last, Goal(c)) {
      longer := run;
    } else {
      var next := LazyStep(c, n, run, last);
      longer := LazyRun(c, n, run + [next], next);
    }
  }
}

/** How much can be carried over from one message size to the next, and what that means for the posted
    receives. */
module PingPongSupply {
  import opened Sums
  import opened PingPong
  import opened PingPongSafety
  import opened PingPongTokens

  // ---- The limit of what is carried over ----

  /** The prefilled work of all phases before q, for one group. */
  function Limit(c: Config, q: nat): nat {
    if q == 0 then 0 else Limit(c, q - 1) + c.w * c.Prefill(q - 1)
  }

  lemma {:induction false} LimitOfSizes(c: Config, m: nat)
    ensures Limit(c, 2 * m) == m * (c.w * c.prefill)
  {
    if m > 0 {
      LimitOfSizes(c, m - 1);
      assert m * (c.w * c.prefill) == (m - 1) * (c.w * c.prefill) + c.w * c.prefill;
    }
  }

  lemma {:induction false} LimitGrows(c: Config, a: nat, b: nat)
    requires a <= b
    ensures Limit(c, a) <= Limit(c, b)
  {
    if a < b {
      LimitGrows(c, a, b - 1);
    }
  }

  /** What the workers of the other side have still to send in the phase before q. */
  function Debt(c: Config, side: Side, ws: seq<Worker>, q: nat): int {
    if q == 0 then 0 else c.w * c.Iters(q - 1) - Sum(SentAll(c, side, ws, q - 1))
  }

  lemma SentAtMost(c: Config, s: Pair, side: Side, g: nat, p: nat, q: nat)
    requires s.Shape(c) && WorkersOk(c, s) && g < c.rx && p < c.w
    ensures Sent(c, side, s.WorkerAt(c, side, g, p), q) <= c.Iters(q)
  {
    assert WorkerOk(c, s.WorkerAt(c, side, g, p));
  }

  lemma DebtIsNat(c: Config, s: Pair, side: Side, g: nat, q: nat)
    requires c.Valid() && s.Shape(c) && WorkersOk(c, s) && g < c.rx
    ensures Debt(c, side, s.Of(side)[g].workers, q) >= 0
  {
    if q > 0 {
      var sent := SentAll(c, side, s.Of(side)[g].workers, q - 1);
      forall p | 0 <= p < |sent| ensures sent[p] <= c.Iters(q - 1) {
        SentAtMost(c, s, side, g, p, q - 1);
      }
      SumAtMost(sent, c.Iters(q - 1));
    }
  }

  /** The books of a half with an excess that, together with what may still arrive late, is within
      the limit of its phase. */
  predicate WithinLimit(c: Config, s: Pair, side: Side, g: nat, x: Excess)
    requires c.Valid() && s.Shape(c) && g < c.rx
  {
    var q := Phase(c, s, side);
    HalfAtOk(c, s, side, g, x) && Total(x) + Debt(c, side.Peer(), s.Of(side.Peer())[g].workers, q) <= Limit(c, q)
  }

  ghost predicate HalfLimited(c: Config, s: Pair, side: Side, g: nat)
    requires c.Valid() && s.Shape(c) && g < c.rx
  {
    exists x: Excess :: WithinLimit(c, s, side, g, x)
  }

  ghost predicate Limited(c: Config, s: Pair)
    requires c.Valid() && s.Shape(c)
  {
    forall side: Side, g: nat | g < c.rx :: HalfLimited(c, s, side, g)
  }

  lemma InitLimited(c: Config)
    requires c.Valid()
    ensures InitPair(c).Shape(c) && Limited(c, InitPair(c))
  {
    InitHalves(c);
    NothingInTotal(c);
    forall side: Side, g: nat | g < c.rx ensures HalfLimited(c, InitPair(c), side, g) {
      assert HalfAtOk(c, InitPair(c), side, g, NoExcess(c));
      assert WithinLimit(c, InitPair(c), side, g, NoExcess(c));
    }
  }

  // ---- Every step keeps it ----

  /** A late message is one of the phase before. */
  lemma LateIsOwed(c: Config, s: Pair, open: bool, step: Step)
    requires c.Valid() && s.Shape(c) && BarrierOk(c, s) && Enabled(c, s, open, step) && step.Send?
    ensures var q := Phase(c, s, step.side.Peer());
            LateSend(c, s, step) <==> q > 0 && s.StageAt(c, step.side, step.g, step.p) / 4 == q - 1
  {
    PeerPhase(c, s, step.side, step.g, step.p);
  }

  /** A late message was owed: the excess grows by what the debt shrinks. */
  lemma DebtPaid(c: Config, s: Pair, open: bool, step: Step, x: Excess)
    requires c.Valid() && s.Shape(c) && WorkersOk(c, s) && BarrierOk(c, s) && Enabled(c, s, open, step) && IsWorkerStep(step)
    ensures Apply(c, s, open, step).Shape(c)
    ensures var q := Phase(c, s, step.side.Peer());
            Total(ExcessAfter(c, s, step, x)) + Debt(c, step.side, Apply(c, s, open, step).Of(step.side)[step.g].workers, q)
            == Total(x) + Debt(c, step.side, s.Of(step.side)[step.g].workers, q)
  {
    ApplyShape(c, s, open, step);
    DebtMoves(c, s, open, step, Phase(c, s, step.side.Peer()));
    if step.Send? {
      LateIsOwed(c, s, open, step);
    }
  }

  lemma DebtMoves(c: Config, s: Pair, open: bool, step: Step, q: nat)
    requires c.Valid() && s.Shape(c) && WorkersOk(c, s) && Enabled(c, s, open, step) && IsWorkerStep(step)
    ensures Apply(c, s, open, step).Shape(c)
    ensures Debt(c, step.side, Apply(c, s, open, step).Of(step.side)[step.g].workers, q)
            == Debt(c, step.side, s.Of(step.side)[step.g].workers, q)
               - (if step.Send? && q > 0 && s.StageAt(c, step.side, step.g, step.p) / 4 == q - 1 then 1 else 0)
  {
    ApplyShape(c, s, open, step);
    if q > 0 {
      OneSenderMoves(c, s, open, step, q - 1);
    }
  }

  /** Workers of a group that takes no step stand where they stood. */
  lemma GroupStands(c: Config, s: Pair, open: bool, step: Step, side: Side, g: nat)
    requires c.Valid() && s.Shape(c) && Enabled(c, s, open, step) && g < c.rx
    requires !(IsWorkerStep(step) && step.side == side && step.g == g)
    ensures Apply(c, s, open, step).Shape(c)
    ensures Apply(c, s, open, step).Of(side)[g].workers == s.Of(side)[g].workers
  {
    ApplyShape(c, s, open, step);
  }

  lemma DebtKept(c: Config, s: Pair, open: bool, step: Step, side: Side, g: nat, x: Excess)
    requires c.Valid() && s.Shape(c) && WorkersOk(c, s) && BarrierOk(c, s) && Enabled(c, s, open, step) && g < c.rx
    ensures Apply(c, s, open, step).Shape(c)
    ensures var q := Phase(c, s, side);
            var x' := if side != step.side && g == step.g then ExcessAfter(c, s, step, x) else x;
            Total(x') + Debt(c, side.Peer(), Apply(c, s, open, step).Of(side.Peer())[g].workers, q)
            == Total(x) + Debt(c, side.Peer(), s.Of(side.Peer())[g].workers, q)
  {
    if IsWorkerStep(step) && step.side == side.Peer() && step.g == g {
      DebtPaid(c, s, open, step, x);
    } else {
      GroupStands(c, s, open, step, side.Peer(), g);
    }
  }

  lemma OneSenderMoves(c: Config, s: Pair, open: bool, step: Step, j: nat)
    requires c.Valid() && s.Shape(c) && WorkersOk(c, s) && Enabled(c, s, open, step) && IsWorkerStep(step)
    ensures Apply(c, s, open, step).Shape(c)
    ensures Sum(SentAll(c, step.side, Apply(c, s, open, step).Of(step.side)[step.g].workers, j))
            == Sum(SentAll(c, step.side, s.Of(step.side)[step.g].workers, j))
               + (if step.Send? && j == s.StageAt(c, step.side, step.g, step.p) / 4 then 1 else 0)
  {
    var own := s.Of(step.side)[step.g];
    WorkerStepGroup(c, s, open, step);
    WorkerCounts(c, s, open, step, j);
    SentUpdate(c, step.side, own.workers, step.p, LocalStep(c, own, step).workers[step.p], j);
  }

  lemma SentUpdate(c: Config, side: Side, ws: seq<Worker>, p: nat, w: Worker, j: nat)
    requires p < |ws|
    ensures Sum(SentAll(c, side, ws[p := w], j)) + Sent(c, side, ws[p], j) == Sum(SentAll(c, side, ws, j)) + Sent(c, side, w, j)
  {
    assert SentAll(c, side, ws[p := w], j) == SentAll(c, side, ws, j)[p := Sent(c, side, w, j)];
    SumUpdate(SentAll(c, side, ws, j), p, Sent(c, side, w, j));
  }

  lemma StepWithinLimit(c: Config, s: Pair, open: bool, step: Step, side: Side, g: nat, x: Excess)
    requires c.Valid() && s.Shape(c) && WorkersOk(c, s) && BarrierOk(c, s) && Enabled(c, s, open, step)
    requires !(IsLeadReset(step) && step.side == side) && g < c.rx && WithinLimit(c, s, side, g, x)
    ensures Apply(c, s, open, step).Shape(c)
    ensures WithinLimit(c, Apply(c, s, open, step), side, g,
                        if side != step.side && g == step.g then ExcessAfter(c, s, step, x) else x)
  {
    HalfKept(c, s, open, step, side, g, x);
    PhaseKept(c, s, open, step, side);
    DebtKept(c, s, open, step, side, g, x);
  }

  /** A reset keeps no more than there is. */
  lemma CarryTotal(c: Config, h: Half, g: nat, r: Race)
    requires c.Valid() && g < c.rx && HalfShape(c, h) && HeldOk(c, h, g) && RaceOk(c, h, r)
    ensures Total(Carry(c, h, g, r)) == InFlight(h) + HeldCount(h) + Sum(r.kept) <= TokensAt(h)
  {
    HeldOnce(c, h, g);
    SumPlus(HeldAll(c, h, g), r.kept, Carry(c, h, g, r).counts);
    SumWithin(r.kept, h.syncs);
  }

  lemma {:induction false} SumWithin(xs: seq<nat>, ys: seq<nat>)
    requires |xs| == |ys| && forall i | 0 <= i < |xs| :: xs[i] <= ys[i]
    ensures Sum(xs) <= Sum(ys)
  {
    if |xs| > 0 {
      SumWithin(xs[..|xs| - 1], ys[..|ys| - 1]);
    }
  }

  /** All of a process's workers are through a loop: what is left at a half of it. */
  lemma LeftAfterLoop(c: Config, h: Half, peer: seq<Worker>, side: Side, g: nat, q: nat, x: Excess)
    requires c.Valid() && g < c.rx && HalfShape(c, h) && |x.counts| == c.w && HalfOk(c, h, peer, side, g, q, x)
    requires forall p: nat | p < c.w :: Taken(c, side, h.workers[p], q) == c.Iters(q)
    ensures TokensAt(h) + (c.w * c.Iters(q) - Sum(SentAll(c, side.Peer(), peer, q)))
            <= c.w * c.Prefill(q) + Total(x)
  {
    HalfTokens(c, h, peer, side, g, q, x);
    SumAtLeast(TakenAll(c, side, h.workers, q), c.Iters(q));
  }

  lemma LaterResetTotal(c: Config, s: Pair, side: Side, g: nat, x: Excess)
    requires c.Valid() && Inv(c, s) && AtReset(c, s, side) && s.StageAt(c, side, 0, 0) > 0
    requires g < c.rx && WithinLimit(c, s, side, g, x)
    ensures var q := Phase(c, s, side);
            TokensAt(s.Of(side)[g]) + Debt(c, side.Peer(), s.Of(side.Peer())[g].workers, q + 1) <= Limit(c, q + 1)
  {
    var q, h, peer := Phase(c, s, side), s.Of(side)[g], s.Of(side.Peer())[g].workers;
    ResetAfterLoop(c, s, side);
    forall p: nat | p < c.w ensures Taken(c, side, h.workers[p], q) == c.Iters(q) {
      LoopOver(c, s, side, g, p, q);
    }
    LeftAfterLoop(c, h, peer, side, g, q, x);
    DebtIsNat(c, s, side.Peer(), g, q);
  }

  /** What a reset carries over, with what may still arrive late, is within the limit of the new phase. */
  lemma ResetTotal(c: Config, s: Pair, side: Side, g: nat, x: Excess, r: Race)
    requires c.Valid() && Inv(c, s) && AtReset(c, s, side) && g < c.rx && WithinLimit(c, s, side, g, x)
    requires RaceOk(c, s.Of(side)[g], r)
    ensures var k := s.StageAt(c, side, 0, 0) / 4;
            Total(Carry(c, s.Of(side)[g], g, r)) + Debt(c, side.Peer(), s.Of(side.Peer())[g].workers, k) <= Limit(c, k)
  {
    if s.StageAt(c, side, 0, 0) == 0 {
      FirstResetClean(c, s, side, g, r);
    } else {
      NextPhase(c, s.StageAt(c, side, 0, 0));
      LaterResetTotal(c, s, side, g, x);
      CarryTotal(c, s.Of(side)[g], g, r);
    }
  }

  lemma NextPhase(c: Config, stage: nat)
    requires PointAt(c, stage).ResetPoint? && stage > 0
    ensures PhaseOf(c, stage) + 1 == stage / 4
  {
  }

  lemma ResetWithinLimit(c: Config, s: Pair, open: bool, step: Step, g: nat, x: Excess)
    requires c.Valid() && Inv(c, s) && Enabled(c, s, open, step) && IsLeadReset(step)
    requires g < c.rx && WithinLimit(c, s, step.side, g, x)
    ensures Apply(c, s, open, step).Shape(c)
    ensures WithinLimit(c, Apply(c, s, open, step), step.side, g, Carry(c, s.Of(step.side)[g], g, step.races[g]))
  {
    assert RaceOk(c, s.Of(step.side)[g], step.races[g]);
    ResetTotal(c, s, step.side, g, x, step.races[g]);
    LeadResetHalf(c, s, open, step, g);
    LeadResetPhase(c, s, open, step);
    GroupStands(c, s, open, step, step.side.Peer(), g);
  }

  lemma FirstResetClean(c: Config, s: Pair, side: Side, g: nat, r: Race)
    requires c.Valid() && Inv(c, s) && AtReset(c, s, side) && g < c.rx && s.StageAt(c, side, 0, 0) == 0
    requires RaceOk(c, s.Of(side)[g], r)
    ensures Total(Carry(c, s.Of(side)[g], g, r)) == 0
  {
    BarrierAhead(c, s, side, side.Peer(), 0, 0);
    FirstResetSettled(c, s, side, g);
    CalmCarriesNothing(c, s.Of(side)[g], g, r);
    NothingInTotal(c);
  }

  lemma StepKeepsHalfLimited(c: Config, s: Pair, open: bool, step: Step, side: Side, g: nat)
    requires c.Valid() && Inv(c, s) && g < c.rx && HalfLimited(c, s, side, g) && Enabled(c, s, open, step)
    ensures Apply(c, s, open, step).Shape(c) && HalfLimited(c, Apply(c, s, open, step), side, g)
  {
    var x: Excess :| WithinLimit(c, s, side, g, x);
    if IsLeadReset(step) && step.side == side {
      ResetWithinLimit(c, s, open, step, g, x);
    } else {
      StepWithinLimit(c, s, open, step, side, g, x);
    }
  }

  lemma StepKeepsLimited(c: Config, s: Pair, open: bool, step: Step)
    requires c.Valid() && Inv(c, s) && Limited(c, s) && Enabled(c, s, open, step)
    ensures Apply(c, s, open, step).Shape(c) && Limited(c, Apply(c, s, open, step))
  {
    ApplyShape(c, s, open, step);
    forall side: Side, g: nat | g < c.rx ensures HalfLimited(c, Apply(c, s, open, step), side, g) {
      assert HalfLimited(c, s, side, g);
      StepKeepsHalfLimited(c, s, open, step, side, g);
    }
  }

  // ---- How many tokens one progress thread can have ----

  /** Phases of the two processes differ by at most one. */
  lemma PhasesClose(c: Config, s: Pair, side: Side)
    requires c.Valid() && Inv(c, s)
    ensures Phase(c, s, side) <= Phase(c, s, side.Peer()) + 1
  {
    var lead, other := s.StageAt(c, side, 0, 0), s.StageAt(c, side.Peer(), 0, 0);
    var q := Phase(c, s, side.Peer());
    if q + 1 < c.Phases() {
      var b := 4 * (q + 1) + 1;
      assert PointAt(c, b).ProcBarrier?;
      assert other < b;
      assert !s.Reached(c, b);
      assert lead <= b;
    }
  }

  lemma PeerNotStarted(c: Config, s: Pair, side: Side, g: nat, p: nat)
    requires c.Valid() && Inv(c, s) && g < c.rx && p < c.w
    requires Phase(c, s, side) == Phase(c, s, side.Peer()) + 1
    ensures s.StageAt(c, side.Peer(), g, p) < c.LoopStage(Phase(c, s, side))
  {
    var b := 4 * Phase(c, s, side) + 1;
    assert PointAt(c, b).ProcBarrier?;
    assert s.StageAt(c, side.Peer(), 0, 0) < b;
    assert !s.Reached(c, b);
    assert NotPast(c, s, b);
  }

  /** Both processes in phase q. */
  lemma TokensLevel(c: Config, s: Pair, side: Side, g: nat, x: Excess, y: Excess)
    requires c.Valid() && s.Shape(c) && WorkersOk(c, s) && g < c.rx && Phase(c, s, Sender) == Phase(c, s, Receiver)
    requires WithinLimit(c, s, Sender, g, x) && WithinLimit(c, s, Receiver, g, y)
    ensures TokensAt(s.Of(side)[g]) <= 2 * Limit(c, Phase(c, s, side) + 1) + c.w
  {
    var q := Phase(c, s, Sender);
    GroupTokens(c, s, g, x, y);
    SumAtMost(MidAll(c, s.snd[g].workers, q), 1);
    DebtIsNat(c, s, Sender, g, q);
    DebtIsNat(c, s, Receiver, g, q);
  }

  /** Nobody is more than one message behind itself. */
  lemma TakenNearSent(c: Config, side: Side, ws: seq<Worker>, q: nat)
    ensures Sum(SentAll(c, side, ws, q)) <= Sum(TakenAll(c, side, ws, q)) + |ws|
  {
    MidBalance(c, side, ws, q);
    SumAtMost(MidAll(c, ws, q), 1);
  }

  lemma ExcessWithin(c: Config, s: Pair, side: Side, g: nat, x: Excess)
    requires c.Valid() && s.Shape(c) && WorkersOk(c, s) && g < c.rx && WithinLimit(c, s, side, g, x)
    ensures Total(x) <= Limit(c, Phase(c, s, side))
  {
    DebtIsNat(c, s, side.Peer(), g, Phase(c, s, side));
  }

  /** A process that is a phase behind owes its peer no more than the limit. */
  lemma OwedWithin(c: Config, s: Pair, side: Side, g: nat, y: Excess)
    requires c.Valid() && s.Shape(c) && g < c.rx && WithinLimit(c, s, side.Peer(), g, y)
    requires Phase(c, s, side.Peer()) == Phase(c, s, side) + 1
    ensures var q := Phase(c, s, side);
            c.w * c.Iters(q) <= Sum(SentAll(c, side, s.Of(side)[g].workers, q)) + Limit(c, q + 1)
  {
    assert side.Peer().Peer() == side;
  }

  lemma HalfBehind(c: Config, h: Half, peer: seq<Worker>, side: Side, g: nat, q: nat, x: Excess)
    requires c.Valid() && g < c.rx && HalfShape(c, h) && |x.counts| == c.w && HalfOk(c, h, peer, side, g, q, x)
    requires Sum(SentAll(c, side.Peer(), peer, q)) <= c.w * c.Iters(q) && Total(x) <= Limit(c, q)
    requires c.w * c.Iters(q) <= Sum(SentAll(c, side, h.workers, q)) + Limit(c, q + 1)
    ensures TokensAt(h) <= 2 * Limit(c, q + 1) + c.w
  {
    HalfTokens(c, h, peer, side, g, q, x);
    TakenNearSent(c, side, h.workers, q);
    LimitStep(c, q);
    BehindSum(TokensAt(h), Sum(TakenAll(c, side, h.workers, q)), c.w * c.Prefill(q), Sum(SentAll(c, side.Peer(), peer, q)),
              Total(x), Sum(SentAll(c, side, h.workers, q)), c.w * c.Iters(q), Limit(c, q), c.w);
  }

  /** The peer is a phase ahead: it has sent everything, and what it took bounds what it was owed. */
  lemma TokensBehind(c: Config, s: Pair, side: Side, g: nat, x: Excess, y: Excess)
    requires c.Valid() && s.Shape(c) && WorkersOk(c, s) && g < c.rx
    requires Phase(c, s, side.Peer()) == Phase(c, s, side) + 1
    requires WithinLimit(c, s, side, g, x) && WithinLimit(c, s, side.Peer(), g, y)
    ensures TokensAt(s.Of(side)[g]) <= 2 * Limit(c, Phase(c, s, side) + 1) + c.w
  {
    OwedWithin(c, s, side, g, y);
    ExcessWithin(c, s, side, g, x);
    DebtIsNat(c, s, side.Peer(), g, Phase(c, s, side) + 1);
    HalfBehind(c, s.Of(side)[g], s.Of(side.Peer())[g].workers, side, g, Phase(c, s, side), x);
  }

  lemma LimitStep(c: Config, q: nat)
    ensures Limit(c, q + 1) == Limit(c, q) + c.w * c.Prefill(q)
  {
  }

  /** t tokens: pre prefilled, `to` sent to them and x carried over, less what was taken. */
  lemma BehindSum(t: nat, taken: nat, pre: nat, to: nat, x: nat, sent: nat, all: nat, limit: nat, w: nat)
    requires t + taken == pre + to + x && to <= all && x <= limit
    requires all <= sent + limit + pre && sent <= taken + w
    ensures t <= 2 * (limit + pre) + w
  {
  }

  /** The peer is a phase behind: nobody has started. */
  lemma TokensAhead(c: Config, s: Pair, side: Side, g: nat, x: Excess)
    requires c.Valid() && Inv(c, s) && g < c.rx && Phase(c, s, side) == Phase(c, s, side.Peer()) + 1
    requires WithinLimit(c, s, side, g, x)
    ensures TokensAt(s.Of(side)[g]) <= 2 * Limit(c, Phase(c, s, side) + 1) + c.w
  {
    var q, h, peer := Phase(c, s, side), s.Of(side)[g], s.Of(side.Peer())[g].workers;
    forall p: nat | p < c.w ensures Sent(c, side.Peer(), peer[p], q) == 0 {
      PeerNotStarted(c, s, side, g, p);
    }
    SumAtMost(SentAll(c, side.Peer(), peer, q), 0);
    HalfTokens(c, h, peer, side, g, q, x);
    DebtIsNat(c, s, side.Peer(), g, q);
  }

  /** Over all phases: the prefilled work of every phase so far, on both sides, and one per sender. */
  lemma TokenLimit(c: Config, s: Pair, side: Side, g: nat)
    requires c.Valid() && Inv(c, s) && Limited(c, s) && g < c.rx
    ensures TokensAt(s.Of(side)[g]) <= 2 * Limit(c, Phase(c, s, side) + 1) + c.w
  {
    PhasesClose(c, s, side);
    PhasesClose(c, s, side.Peer());
    assert side.Peer().Peer() == side;
    assert HalfLimited(c, s, Sender, g) && HalfLimited(c, s, Receiver, g);
    TokensAnyhow(c, s, side, g);
  }

  lemma TokensAnyhow(c: Config, s: Pair, side: Side, g: nat)
    requires c.Valid() && Inv(c, s) && g < c.rx && HalfLimited(c, s, Sender, g) && HalfLimited(c, s, Receiver, g)
    requires Phase(c, s, side) <= Phase(c, s, side.Peer()) + 1 && Phase(c, s, side.Peer()) <= Phase(c, s, side) + 1
    ensures TokensAt(s.Of(side)[g]) <= 2 * Limit(c, Phase(c, s, side) + 1) + c.w
  {
    var x: Excess :| WithinLimit(c, s, Sender, g, x);
    var y: Excess :| WithinLimit(c, s, Receiver, g, y);
    var own, other := if side.Sender? then x else y, if side.Sender? then y else x;
    if Phase(c, s, side) == Phase(c, s, side.Peer()) {
      TokensLevel(c, s, side, g, x, y);
    } else if Phase(c, s, side) < Phase(c, s, side.Peer()) {
      TokensBehind(c, s, side, g, own, other);
    } else {
      TokensAhead(c, s, side, g, own);
    }
  }

  lemma LimitAtMost(c: Config, s: Pair, side: Side)
    requires c.Valid() && s.Shape(c)
    ensures Limit(c, Phase(c, s, side) + 1) <= c.sizes * (c.w * c.prefill)
  {
    LimitOfSizes(c, c.sizes);
    if c.sizes == 0 {
      assert Limit(c, 1) == Limit(c, 0) + c.w * c.Prefill(0);
    } else {
      LimitGrows(c, Phase(c, s, side) + 1, 2 * c.sizes);
    }
  }

  /** If w(2P * sizes + 1) + 16 <= 2048, a message on the wire always finds a posted receive. */
  lemma ReceiveSupply(c: Config, s: Pair, side: Side, g: nat)
    requires c.Valid() && Inv(c, s) && Limited(c, s) && g < c.rx
    requires 2 * (c.sizes * (c.w * c.prefill)) + c.w + POLL_BATCH <= PREPOSTED
    ensures s.Of(side)[g].wire > 0 ==> s.Of(side)[g].posted > 0
  {
    assert SupplyOk(s.Of(side)[g]);
    TokenLimit(c, s, side, g);
    LimitAtMost(c, s, side);
  }
}

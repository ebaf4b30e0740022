/** The inductive invariant of the ping-pong protocol and its preservation by every step. */
module PingPongSafety {
  import opened Options
  import opened Sums
  import opened RoundRobin
  import opened PingPong

  // ---- What a worker has done in the loop of phase q, read off its program counter ----

  function Sent(c: Config, side: Side, w: Worker, q: nat): nat {
    if w.stage < c.LoopStage(q) then 0
    else if w.stage > c.LoopStage(q) then c.Iters(q)
    else w.iter + (if side.Sender? && w.mid then 1 else 0)
  }

  function Taken(c: Config, side: Side, w: Worker, q: nat): nat {
    if w.stage < c.LoopStage(q) then 0
    else if w.stage > c.LoopStage(q) then c.Iters(q)
    else w.iter + (if side.Receiver? && w.mid then 1 else 0)
  }

  function SentAll(c: Config, side: Side, ws: seq<Worker>, q: nat): (r: seq<nat>)
    ensures |r| == |ws|
  {
    seq(|ws|, i requires 0 <= i < |ws| => Sent(c, side, ws[i], q))
  }

  /** The phase the counters of a process belong to: that of the last reset its thread 0 made. */
  function PhaseOf(c: Config, stage0: nat): nat {
    if stage0 >= 4 * c.Phases() then (if c.Phases() == 0 then 0 else c.Phases() - 1)
    else if stage0 == 0 then 0
    else (stage0 - 1) / 4
  }

  function Phase(c: Config, s: Pair, side: Side): nat
    requires c.Valid() && s.Shape(c)
  {
    PhaseOf(c, s.StageAt(c, side, 0, 0))
  }

  /** Where the books balance without anything carried over. With prefilled work the reset that opens
      the second message size is not clean; without prefill, or if the measured loops send nothing,
      whole runs are in scope. */
  predicate InScope(c: Config, s: Pair)
    requires c.Valid() && s.Shape(c)
  {
    c.prefill == 0 || c.total == 0 || (Phase(c, s, Sender) <= 1 && Phase(c, s, Receiver) <= 1)
  }

  // ---- The invariant ----

  predicate WorkerOk(c: Config, w: Worker) {
    && w.stage <= 4 * c.Phases() + 1
    && if InLoop(c, w)
       then w.iter <= c.Iters(w.stage / 4) && (w.mid ==> w.iter < c.Iters(w.stage / 4))
       else w.iter == 0 && !w.mid
  }

  predicate WorkersOk(c: Config, s: Pair)
    requires s.Shape(c)
  {
    forall side: Side, g: nat, p: nat | g < c.rx && p < c.w :: WorkerOk(c, s.WorkerAt(c, side, g, p))
  }

  predicate SideNotPast(c: Config, s: Pair, side: Side, b: nat)
    requires s.Shape(c)
  {
    forall g: nat, p: nat | g < c.rx && p < c.w :: s.StageAt(c, side, g, p) <= b
  }

  predicate NotPast(c: Config, s: Pair, b: nat)
    requires s.Shape(c)
  {
    SideNotPast(c, s, Sender, b) && SideNotPast(c, s, Receiver, b)
  }

  /** Nobody is past a barrier that somebody has not reached. */
  ghost predicate BarrierOk(c: Config, s: Pair)
    requires s.Shape(c)
  {
    && (forall b: nat | PointAt(c, b).ProcBarrier? :: s.Reached(c, b) || NotPast(c, s, b))
    && (forall b: nat, side: Side | PointAt(c, b).ThreadBarrier? ::
          s.SideReached(c, side, b) || SideNotPast(c, s, side, b))
  }

  /** Receive supply of one progress thread. */
  predicate SupplyOk(h: Half) {
    && h.posted + h.cq + h.polled + HeldCount(h) + h.spent == PREPOSTED
    && h.polled + HeldCount(h) + h.spent <= POLL_BATCH
  }

  predicate SuppliesOk(c: Config, s: Pair)
    requires s.Shape(c)
  {
    forall side: Side, g: nat | g < c.rx :: SupplyOk(s.Of(side)[g])
  }

  function HeldFor(c: Config, h: Half, g: nat, p: nat): nat {
    if h.held == Some(WorkerId(c.rx, g, p)) then 1 else 0
  }

  /** What a half carries over a reset: messages sent to it before the reset, or after it by workers
      of an earlier phase; per worker, a dispatch that was half done at the reset or raced with it; and
      the position its cursor started from. */
  datatype Excess = Excess(wire: nat, counts: seq<nat>, start: nat)

  function NoExcess(c: Config): Excess {
    Excess(0, seq(c.w, _ => 0), 0)
  }

  /** The books of worker p: what was prefilled, dispatched and carried over to it is what it took,
      what its counter shows, and what is about to be added to its counter. */
  predicate CounterOk(c: Config, h: Half, side: Side, g: nat, p: nat, q: nat, x: Excess)
    requires HalfShape(c, h) && p < c.w && |x.counts| == c.w
  {
    h.syncs[p] + HeldFor(c, h, g, p) + Taken(c, side, h.workers[p], q)
    == c.Prefill(q) + ShareFrom(x.start, h.picks, c.w, p) + x.counts[p]
  }

  predicate HeldOk(c: Config, h: Half, g: nat) {
    h.held.Some? ==> exists p: nat | p < c.w :: h.held.value == WorkerId(c.rx, g, p)
  }

  /** One progress thread in phase q: everything the peer sent and everything carried over is under
      way or dispatched, the cursor is where the round robin is, and every worker's books balance. */
  predicate HalfOk(c: Config, h: Half, peer: seq<Worker>, side: Side, g: nat, q: nat, x: Excess)
    requires c.Valid() && HalfShape(c, h) && |x.counts| == c.w
  {
    && Sum(SentAll(c, side.Peer(), peer, q)) + x.wire == InFlight(h) + h.picks
    && h.cursor == WorkerId(c.rx, g, (x.start + h.picks) % c.w)
    && HeldOk(c, h, g)
    && (x == NoExcess(c) ==> h.bumps + HeldCount(h) == h.picks)
    && forall p: nat | p < c.w :: CounterOk(c, h, side, g, p, q, x)
  }

  predicate HalfAtOk(c: Config, s: Pair, side: Side, g: nat, x: Excess)
    requires c.Valid() && s.Shape(c) && g < c.rx
  {
    |x.counts| == c.w && HalfOk(c, s.Of(side)[g], s.Of(side.Peer())[g].workers, side, g, Phase(c, s, side), x)
  }

  /** The books balance with at least `floor` messages carried over. */
  ghost predicate Carried(c: Config, s: Pair, side: Side, g: nat, floor: nat)
    requires c.Valid() && s.Shape(c) && g < c.rx
  {
    exists x: Excess :: x.wire >= floor && HalfAtOk(c, s, side, g, x)
  }

  ghost predicate AllCarried(c: Config, s: Pair)
    requires c.Valid() && s.Shape(c)
  {
    forall side: Side, g: nat | g < c.rx :: Carried(c, s, side, g, 0)
  }

  predicate HalvesOk(c: Config, s: Pair)
    requires c.Valid() && s.Shape(c)
  {
    forall side: Side, g: nat | g < c.rx :: HalfAtOk(c, s, side, g, NoExcess(c))
  }

  /** A process that has moved on to phase q left a peer that had sent all of phase q - 1. */
  predicate CaughtUp(c: Config, s: Pair, side: Side)
    requires c.Valid() && s.Shape(c)
  {
    Phase(c, s, side) >= 1 ==> HasSent(c, s, side.Peer(), Phase(c, s, side) - 1)
  }

  /** All workers of a process have sent everything of phase j. */
  predicate HasSent(c: Config, s: Pair, side: Side, j: nat)
    requires s.Shape(c)
  {
    forall g: nat, p: nat | g < c.rx && p < c.w :: Sent(c, side, s.WorkerAt(c, side, g, p), j) == c.Iters(j)
  }

  ghost predicate Inv(c: Config, s: Pair)
    requires c.Valid()
  {
    && s.Shape(c)
    && WorkersOk(c, s)
    && BarrierOk(c, s)
    && SuppliesOk(c, s)
    && AllCarried(c, s)
    && (InScope(c, s) ==> HalvesOk(c, s) && CaughtUp(c, s, Sender) && CaughtUp(c, s, Receiver))
  }

  lemma InitHalfOk(c: Config, side: Side, g: nat)
    requires c.Valid() && g < c.rx
    ensures HalfShape(c, InitHalf(c, g))
    ensures HalfOk(c, InitHalf(c, g), InitHalf(c, g).workers, side, g, 0, NoExcess(c))
  {
    SumAtMost(SentAll(c, side.Peer(), InitHalf(c, g).workers, 0), 0);
  }

  lemma InitHalves(c: Config)
    requires c.Valid()
    ensures InitPair(c).Shape(c) && HalvesOk(c, InitPair(c))
    ensures Phase(c, InitPair(c), Sender) == 0 && Phase(c, InitPair(c), Receiver) == 0
  {
    var s := InitPair(c);
    forall side: Side, g: nat | g < c.rx ensures HalfAtOk(c, s, side, g, NoExcess(c)) {
      InitHalfOk(c, side, g);
    }
  }

  lemma CleanIsCarried(c: Config, s: Pair)
    requires c.Valid() && s.Shape(c) && HalvesOk(c, s)
    ensures AllCarried(c, s)
  {
    forall side: Side, g: nat | g < c.rx ensures Carried(c, s, side, g, 0) {
      assert HalfAtOk(c, s, side, g, NoExcess(c));
    }
  }

  lemma InitWorkers(c: Config)
    requires c.Valid() && InitPair(c).Shape(c)
    ensures WorkersOk(c, InitPair(c)) && SuppliesOk(c, InitPair(c))
  {
  }

  lemma InitBarriers(c: Config)
    requires c.Valid() && InitPair(c).Shape(c)
    ensures BarrierOk(c, InitPair(c))
  {
    var s := InitPair(c);
    forall b: nat, side: Side ensures SideNotPast(c, s, side, b) {
      assert forall g: nat, p: nat | g < c.rx && p < c.w :: s.StageAt(c, side, g, p) == 0;
    }
  }

  lemma InitInv(c: Config)
    requires c.Valid()
    ensures Inv(c, InitPair(c))
  {
    InitHalves(c);
    InitWorkers(c);
    InitBarriers(c);
    CleanIsCarried(c, InitPair(c));
  }

  // ---- Shape and program counters ----

  lemma PutShape(c: Config, s: Pair, side: Side, g: nat, h: Half)
    requires s.Shape(c) && g < c.rx && HalfShape(c, h)
    ensures s.Put(side, g, h).Shape(c)
  {
    var s' := s.Put(side, g, h);
    forall sd: Side, i | 0 <= i < c.rx ensures HalfShape(c, s'.Of(sd)[i]) {
      assert HalfShape(c, s.Of(sd)[i]);
    }
  }

  lemma ResetShape(c: Config, s: Pair, side: Side, count: nat, races: seq<Race>)
    requires s.Shape(c) && RacesOk(c, s, side, races)
    ensures ResetSide(c, s, side, count, races).Shape(c)
  {
    var s' := ResetSide(c, s, side, count, races);
    forall sd: Side, i | 0 <= i < c.rx ensures HalfShape(c, s'.Of(sd)[i]) {
      assert HalfShape(c, s.Of(sd)[i]);
    }
  }

  lemma LeadResetShape(c: Config, s: Pair, open: bool, step: Step)
    requires c.Valid() && s.Shape(c) && Enabled(c, s, open, step) && IsLeadReset(step)
    ensures Apply(c, s, open, step).Shape(c)
  {
    var side, count := step.side, c.Prefill(s.Of(step.side)[0].workers[0].stage / 4);
    var base := ResetSide(c, s, side, count, step.races);
    ResetShape(c, s, side, count, step.races);
    PutShape(c, base, side, 0, LocalStep(c, base.Of(side)[0], step));
  }

  lemma SendShape(c: Config, s: Pair, open: bool, step: Step)
    requires c.Valid() && s.Shape(c) && Enabled(c, s, open, step) && step.Send?
    ensures Apply(c, s, open, step).Shape(c)
  {
    var side, g := step.side, step.g;
    var h, peer := LocalStep(c, s.Of(side)[g], step), s.Of(side.Peer())[g];
    PutShape(c, s, side, g, h);
    PutShape(c, s.Put(side, g, h), side.Peer(), g, peer.(wire := peer.wire + 1));
  }

  lemma ApplyShape(c: Config, s: Pair, open: bool, step: Step)
    requires c.Valid() && s.Shape(c) && Enabled(c, s, open, step)
    ensures Apply(c, s, open, step).Shape(c)
  {
    if IsLeadReset(step) {
      LeadResetShape(c, s, open, step);
    } else if step.Send? {
      SendShape(c, s, open, step);
    } else {
      PutShape(c, s, step.side, step.g, LocalStep(c, s.Of(step.side)[step.g], step));
    }
  }

  /** A step changes the program counter of at most the worker it names. */
  lemma OtherWorkerKept(c: Config, s: Pair, open: bool, step: Step, side: Side, g: nat, p: nat)
    requires c.Valid() && s.Shape(c) && Enabled(c, s, open, step) && g < c.rx && p < c.w
    requires !(IsWorkerStep(step) && side == step.side && g == step.g && p == step.p)
    ensures Apply(c, s, open, step).Shape(c)
    ensures Apply(c, s, open, step).WorkerAt(c, side, g, p) == s.WorkerAt(c, side, g, p)
  {
    ApplyShape(c, s, open, step);
  }

  lemma OwnWorkerMoved(c: Config, s: Pair, open: bool, step: Step)
    requires c.Valid() && s.Shape(c) && Enabled(c, s, open, step) && IsWorkerStep(step)
    ensures Apply(c, s, open, step).Shape(c)
    ensures var s' := Apply(c, s, open, step);
            var w, w' := s.WorkerAt(c, step.side, step.g, step.p), s'.WorkerAt(c, step.side, step.g, step.p);
            if step.Send? || step.Take? then w'.stage == w.stage else w' == w.Advance()
  {
    ApplyShape(c, s, open, step);
  }

  lemma ApplyWorkers(c: Config, s: Pair, open: bool, step: Step)
    requires c.Valid() && s.Shape(c) && Enabled(c, s, open, step)
    ensures Apply(c, s, open, step).Shape(c)
    ensures var s' := Apply(c, s, open, step);
            forall side: Side, g: nat, p: nat | g < c.rx && p < c.w &&
              !(IsWorkerStep(step) && side == step.side && g == step.g && p == step.p) ::
                s'.WorkerAt(c, side, g, p) == s.WorkerAt(c, side, g, p)
    ensures IsWorkerStep(step) ==>
              var s' := Apply(c, s, open, step);
              var w, w' := s.WorkerAt(c, step.side, step.g, step.p), s'.WorkerAt(c, step.side, step.g, step.p);
              if step.Send? || step.Take? then w'.stage == w.stage else w' == w.Advance()
  {
    ApplyShape(c, s, open, step);
    var s' := Apply(c, s, open, step);
    forall side: Side, g: nat, p: nat | g < c.rx && p < c.w &&
      !(IsWorkerStep(step) && side == step.side && g == step.g && p == step.p)
      ensures s'.WorkerAt(c, side, g, p) == s.WorkerAt(c, side, g, p)
    {
      OtherWorkerKept(c, s, open, step, side, g, p);
    }
    if IsWorkerStep(step) {
      OwnWorkerMoved(c, s, open, step);
    }
  }

  lemma WorkersKept(c: Config, s: Pair, open: bool, step: Step)
    requires c.Valid() && s.Shape(c) && WorkersOk(c, s) && Enabled(c, s, open, step)
    ensures Apply(c, s, open, step).Shape(c) && WorkersOk(c, Apply(c, s, open, step))
  {
    ApplyWorkers(c, s, open, step);
    var s' := Apply(c, s, open, step);
    if IsWorkerStep(step) {
      assert WorkerOk(c, s.WorkerAt(c, step.side, step.g, step.p));
      assert WorkerOk(c, s'.WorkerAt(c, step.side, step.g, step.p));
    }
    forall side: Side, g: nat, p: nat | g < c.rx && p < c.w
      ensures WorkerOk(c, s'.WorkerAt(c, side, g, p))
    {
      assert WorkerOk(c, s.WorkerAt(c, side, g, p));
    }
  }

  lemma StagesGrow(c: Config, s: Pair, open: bool, step: Step, side: Side, b: nat)
    requires c.Valid() && s.Shape(c) && Enabled(c, s, open, step)
    requires s.SideReached(c, side, b)
    ensures Apply(c, s, open, step).Shape(c) && Apply(c, s, open, step).SideReached(c, side, b)
  {
    ApplyWorkers(c, s, open, step);
    var s' := Apply(c, s, open, step);
    forall g: nat, p: nat | g < c.rx && p < c.w ensures s'.StageAt(c, side, g, p) >= b {
      assert s.StageAt(c, side, g, p) >= b;
    }
  }

  lemma SideStaysBehind(c: Config, s: Pair, open: bool, step: Step, side: Side, b: nat)
    requires c.Valid() && s.Shape(c) && Enabled(c, s, open, step)
    requires SideNotPast(c, s, side, b)
    requires !(IsWorkerStep(step) && step.side == side && s.StageAt(c, side, step.g, step.p) == b && !step.Send? && !step.Take?)
    ensures Apply(c, s, open, step).Shape(c) && SideNotPast(c, Apply(c, s, open, step), side, b)
  {
    ApplyWorkers(c, s, open, step);
    var s' := Apply(c, s, open, step);
    forall g: nat, p: nat | g < c.rx && p < c.w ensures s'.StageAt(c, side, g, p) <= b {
      assert s.StageAt(c, side, g, p) <= b;
    }
  }

  lemma BarrierKept(c: Config, s: Pair, open: bool, step: Step)
    requires c.Valid() && s.Shape(c) && BarrierOk(c, s) && Enabled(c, s, open, step)
    ensures Apply(c, s, open, step).Shape(c) && BarrierOk(c, Apply(c, s, open, step))
  {
    ApplyShape(c, s, open, step);
    var s' := Apply(c, s, open, step);
    forall b: nat | PointAt(c, b).ProcBarrier? ensures s'.Reached(c, b) || NotPast(c, s', b) {
      if s.Reached(c, b) {
        StagesGrow(c, s, open, step, Sender, b);
        StagesGrow(c, s, open, step, Receiver, b);
      } else {
        SideStaysBehind(c, s, open, step, Sender, b);
        SideStaysBehind(c, s, open, step, Receiver, b);
      }
    }
    forall b: nat, side: Side | PointAt(c, b).ThreadBarrier?
      ensures s'.SideReached(c, side, b) || SideNotPast(c, s', side, b)
    {
      if s.SideReached(c, side, b) {
        StagesGrow(c, s, open, step, side, b);
      } else {
        SideStaysBehind(c, s, open, step, side, b);
      }
    }
  }

  lemma LocalSupply(c: Config, s: Pair, open: bool, step: Step, h: Half)
    requires c.Valid() && s.Shape(c) && Enabled(c, s, open, step)
    requires h == s.Of(step.side)[step.g]
    requires SupplyOk(h)
    ensures SupplyOk(LocalStep(c, h, step))
  {
  }

  lemma SuppliesKept(c: Config, s: Pair, open: bool, step: Step)
    requires c.Valid() && s.Shape(c) && SuppliesOk(c, s) && Enabled(c, s, open, step)
    ensures Apply(c, s, open, step).Shape(c) && SuppliesOk(c, Apply(c, s, open, step))
  {
    ApplyShape(c, s, open, step);
    var s' := Apply(c, s, open, step);
    var h := s.Of(step.side)[step.g];
    assert SupplyOk(h);
    forall side: Side, g: nat | g < c.rx ensures SupplyOk(s'.Of(side)[g]) {
      assert SupplyOk(s.Of(side)[g]);
      if IsLeadReset(step) {
        LeadResetSupply(c, s, open, step, side, g);
      } else {
        LocalSupply(c, s, open, step, h);
      }
    }
  }

  lemma LeadResetSupply(c: Config, s: Pair, open: bool, step: Step, side: Side, g: nat)
    requires c.Valid() && s.Shape(c) && Enabled(c, s, open, step) && IsLeadReset(step) && g < c.rx && SupplyOk(s.Of(side)[g])
    ensures Apply(c, s, open, step).Shape(c) && SupplyOk(Apply(c, s, open, step).Of(side)[g])
  {
    ApplyShape(c, s, open, step);
  }

  // ---- Which phase everybody is in ----

  /** A worker inside the loop of phase q has its own process's counters in phase q. */
  lemma OwnPhase(c: Config, s: Pair, side: Side, g: nat, p: nat)
    requires c.Valid() && s.Shape(c) && BarrierOk(c, s)
    requires g < c.rx && p < c.w && InLoop(c, s.WorkerAt(c, side, g, p))
    ensures Phase(c, s, side) == s.StageAt(c, side, g, p) / 4
  {
    var st := s.StageAt(c, side, g, p);
    var q := st / 4;
    assert PointAt(c, 4 * q + 1).ProcBarrier?;
    assert !NotPast(c, s, 4 * q + 1);
    assert s.StageAt(c, side, 0, 0) >= 4 * q + 1;
    var b := 4 * q + 3;
    assert PointAt(c, b).ProcBarrier? || PointAt(c, b).ThreadBarrier?;
    assert !s.SideReached(c, side, b);
    assert SideNotPast(c, s, side, b);
    assert s.StageAt(c, side, 0, 0) <= b;
  }

  /** Its peer's counters are in phase q too, or one phase further. */
  lemma PeerPhase(c: Config, s: Pair, side: Side, g: nat, p: nat)
    requires c.Valid() && s.Shape(c) && BarrierOk(c, s)
    requires g < c.rx && p < c.w && InLoop(c, s.WorkerAt(c, side, g, p))
    ensures var q := s.StageAt(c, side, g, p) / 4;
            Phase(c, s, side.Peer()) == q || Phase(c, s, side.Peer()) == q + 1
    ensures Phase(c, s, side.Peer()) == s.StageAt(c, side, g, p) / 4 + 1 ==>
              s.SideReached(c, side.Peer(), s.StageAt(c, side, g, p) + 1)
  {
    var st := s.StageAt(c, side, g, p);
    var q := st / 4;
    var lead := s.StageAt(c, side.Peer(), 0, 0);
    assert PointAt(c, 4 * q + 1).ProcBarrier?;
    assert !NotPast(c, s, 4 * q + 1);
    assert lead >= 4 * q + 1;
    var b := if q + 1 < c.Phases() then 4 * q + 5 else 4 * q + 4;
    assert PointAt(c, b).ProcBarrier?;
    assert !s.Reached(c, b);
    assert lead <= b;
    var e := 4 * q + 3;
    assert e == st + 1;
    if Phase(c, s, side.Peer()) == q + 1 {
      assert lead > e;
      assert !SideNotPast(c, s, side.Peer(), e);
      assert PointAt(c, e).ProcBarrier? || PointAt(c, e).ThreadBarrier?;
    }
  }

  lemma PhaseKept(c: Config, s: Pair, open: bool, step: Step, side: Side)
    requires c.Valid() && s.Shape(c) && Enabled(c, s, open, step)
    requires !(IsLeadReset(step) && step.side == side)
    ensures Apply(c, s, open, step).Shape(c) && Phase(c, Apply(c, s, open, step), side) == Phase(c, s, side)
  {
    ApplyWorkers(c, s, open, step);
  }

  lemma LeadResetPhase(c: Config, s: Pair, open: bool, step: Step)
    requires c.Valid() && s.Shape(c) && Enabled(c, s, open, step) && IsLeadReset(step)
    ensures Apply(c, s, open, step).Shape(c)
    ensures var k := s.StageAt(c, step.side, 0, 0) / 4;
            && Phase(c, Apply(c, s, open, step), step.side) == k
            && Phase(c, s, step.side) == (if k == 0 then 0 else k - 1)
  {
    ApplyWorkers(c, s, open, step);
  }

  lemma ScopeBackward(c: Config, s: Pair, open: bool, step: Step)
    requires c.Valid() && s.Shape(c) && Enabled(c, s, open, step)
    requires Apply(c, s, open, step).Shape(c) && InScope(c, Apply(c, s, open, step))
    ensures InScope(c, s)
  {
    forall side: Side ensures Phase(c, s, side) <= Phase(c, Apply(c, s, open, step), side) {
      if IsLeadReset(step) && step.side == side {
        LeadResetPhase(c, s, open, step);
      } else {
        PhaseKept(c, s, open, step, side);
      }
    }
  }

  // ---- Steps of a progress thread keep the books of its half ----

  lemma ArriveOk(c: Config, h: Half, peer: seq<Worker>, side: Side, g: nat, q: nat, x: Excess)
    requires c.Valid() && HalfShape(c, h) && |x.counts| == c.w && HalfOk(c, h, peer, side, g, q, x) && h.wire > 0 && h.posted > 0
    ensures HalfOk(c, h.(wire := h.wire - 1, posted := h.posted - 1, cq := h.cq + 1), peer, side, g, q, x)
  {
    var h' := h.(wire := h.wire - 1, posted := h.posted - 1, cq := h.cq + 1);
    forall p: nat | p < c.w ensures CounterOk(c, h', side, g, p, q, x) {
      assert CounterOk(c, h, side, g, p, q, x);
    }
  }

  lemma PollOk(c: Config, h: Half, peer: seq<Worker>, side: Side, g: nat, q: nat, x: Excess, n: nat)
    requires c.Valid() && HalfShape(c, h) && |x.counts| == c.w && HalfOk(c, h, peer, side, g, q, x) && h.polled == 0 && n <= h.cq
    ensures HalfOk(c, h.(cq := h.cq - n, polled := n), peer, side, g, q, x)
  {
    var h' := h.(cq := h.cq - n, polled := n);
    forall p: nat | p < c.w ensures CounterOk(c, h', side, g, p, q, x) {
      assert CounterOk(c, h, side, g, p, q, x);
    }
  }

  lemma PickOk(c: Config, h: Half, peer: seq<Worker>, side: Side, g: nat, q: nat, x: Excess)
    requires c.Valid() && g < c.rx && HalfShape(c, h) && |x.counts| == c.w && HalfOk(c, h, peer, side, g, q, x)
    requires h.polled > 0 && h.held.None?
    ensures HalfOk(c, h.(polled := h.polled - 1, held := Some(h.cursor), picks := h.picks + 1,
                         cursor := IncrementWorkerIdx(c.Tx(), c.rx, g, h.cursor)), peer, side, g, q, x)
  {
    var h' := h.(polled := h.polled - 1, held := Some(h.cursor), picks := h.picks + 1,
                 cursor := IncrementWorkerIdx(c.Tx(), c.rx, g, h.cursor));
    IncrementIsNextPosition(c.w, c.rx, g, x.start + h.picks);
    var p0 := (x.start + h.picks) % c.w;
    forall p: nat | p < c.w ensures CounterOk(c, h', side, g, p, q, x) {
      assert CounterOk(c, h, side, g, p, q, x);
      WorkerIdDecodes(c.rx, g, p);
      WorkerIdDecodes(c.rx, g, p0);
    }
  }

  lemma BumpOk(c: Config, h: Half, peer: seq<Worker>, side: Side, g: nat, q: nat, x: Excess)
    requires c.Valid() && g < c.rx && HalfShape(c, h) && |x.counts| == c.w && HalfOk(c, h, peer, side, g, q, x)
    requires h.held.Some?
    ensures h.held.value / c.rx < c.w
    ensures var p := h.held.value / c.rx;
            HalfOk(c, h.(held := None, spent := h.spent + 1, syncs := h.syncs[p := h.syncs[p] + 1], bumps := h.bumps + 1),
                   peer, side, g, q, x)
  {
    var p0: nat :| p0 < c.w && h.held.value == WorkerId(c.rx, g, p0);
    WorkerIdDecodes(c.rx, g, p0);
    var h' := h.(held := None, spent := h.spent + 1, syncs := h.syncs[p0 := h.syncs[p0] + 1], bumps := h.bumps + 1);
    forall p: nat | p < c.w ensures CounterOk(c, h', side, g, p, q, x) {
      assert CounterOk(c, h, side, g, p, q, x);
      WorkerIdDecodes(c.rx, g, p);
    }
  }

  lemma RepostOk(c: Config, h: Half, peer: seq<Worker>, side: Side, g: nat, q: nat, x: Excess)
    requires c.Valid() && HalfShape(c, h) && |x.counts| == c.w && HalfOk(c, h, peer, side, g, q, x)
    ensures HalfOk(c, h.(posted := h.posted + h.spent, spent := 0), peer, side, g, q, x)
  {
    var h' := h.(posted := h.posted + h.spent, spent := 0);
    forall p: nat | p < c.w ensures CounterOk(c, h', side, g, p, q, x) {
      assert CounterOk(c, h, side, g, p, q, x);
    }
  }

  // ---- Steps of a worker keep the books of its own half and of the half it sends to ----

  /** Own half: the worker's `taken` count grows by exactly what its counter loses. */
  lemma OwnWorkerOk(c: Config, h: Half, peer: seq<Worker>, side: Side, g: nat, q: nat, x: Excess, p: nat, w: Worker, used: nat)
    requires c.Valid() && HalfShape(c, h) && |x.counts| == c.w && HalfOk(c, h, peer, side, g, q, x) && p < c.w
    requires used <= h.syncs[p] && Taken(c, side, w, q) == Taken(c, side, h.workers[p], q) + used
    ensures HalfOk(c, SetWorker(h, p, w).(syncs := h.syncs[p := h.syncs[p] - used]), peer, side, g, q, x)
  {
    var h' := SetWorker(h, p, w).(syncs := h.syncs[p := h.syncs[p] - used]);
    forall i: nat | i < c.w ensures CounterOk(c, h', side, g, i, q, x) {
      assert CounterOk(c, h, side, g, i, q, x);
    }
  }

  /** Peer's half: what the worker has sent more is on the wire; a message that does not count in
      phase q is carried over. */
  lemma PeerWorkerOk(c: Config, h: Half, peer: seq<Worker>, side: Side, g: nat, q: nat, x: Excess, p: nat, w: Worker,
                     more: nat, late: nat)
    requires c.Valid() && HalfShape(c, h) && |x.counts| == c.w && HalfOk(c, h, peer, side, g, q, x) && p < |peer|
    requires Sent(c, side.Peer(), w, q) + late == Sent(c, side.Peer(), peer[p], q) + more
    ensures HalfOk(c, h.(wire := h.wire + more), peer[p := w], side, g, q, x.(wire := x.wire + late))
  {
    var h' := h.(wire := h.wire + more);
    var y := Sent(c, side.Peer(), w, q);
    assert SentAll(c, side.Peer(), peer[p := w], q) == SentAll(c, side.Peer(), peer, q)[p := y];
    SumUpdate(SentAll(c, side.Peer(), peer, q), p, y);
    var x' := x.(wire := x.wire + late);
    forall i: nat | i < c.w ensures CounterOk(c, h', side, g, i, q, x') {
      assert CounterOk(c, h, side, g, i, q, x);
    }
  }

  // ---- Resets ----

  /** Nothing under way, nobody picked, the cursor home, nothing to race with: a reset loses nothing but
      counter units. */
  predicate HalfCalm(c: Config, h: Half, g: nat)
    requires HalfShape(c, h)
  {
    InFlight(h) == 0 && h.cursor == g && Undisturbed(c, h)
  }

  /** A loop after which a reset finds nothing under way: nothing was prefilled or nothing was sent. */
  predicate Plain(c: Config, q: nat) {
    c.Prefill(q) == 0 || c.Iters(q) == 0
  }

  lemma CleanCounter(c: Config, h: Half, peer: seq<Worker>, side: Side, g: nat, q: nat, p: nat)
    requires c.Valid() && HalfShape(c, h) && HalfOk(c, h, peer, side, g, q, NoExcess(c)) && p < c.w
    ensures h.syncs[p] + HeldFor(c, h, g, p) + Taken(c, side, h.workers[p], q) == c.Prefill(q) + Share(h.picks, c.w, p)
  {
    assert CounterOk(c, h, side, g, p, q, NoExcess(c));
    ShareFromSplits(0, h.picks, c.w, p);
  }

  lemma IdleLoop(c: Config, h: Half, peer: seq<Worker>, side: Side, g: nat, q: nat)
    requires c.Valid() && HalfShape(c, h) && |peer| == c.w && HalfOk(c, h, peer, side, g, q, NoExcess(c))
    requires forall p: nat | p < c.w :: Sent(c, side.Peer(), peer[p], q) == 0
    ensures HalfCalm(c, h, g)
  {
    SumAtMost(SentAll(c, side.Peer(), peer, q), 0);
  }

  /** Books that balance, k messages taken by every worker, at most k sent by every peer worker,
      nothing prefilled: then all k rounds were sent and dispatched. */
  lemma HalfDelivered(c: Config, h: Half, peer: seq<Worker>, side: Side, g: nat, q: nat, k: nat)
    requires c.Valid() && HalfShape(c, h) && |peer| == c.w && HalfOk(c, h, peer, side, g, q, NoExcess(c))
    requires c.Prefill(q) == 0
    requires forall p: nat | p < c.w :: Taken(c, side, h.workers[p], q) == k
    requires forall p: nat | p < c.w :: Sent(c, side.Peer(), peer[p], q) <= k
    ensures InFlight(h) == 0 && h.picks == c.w * k
    ensures forall p: nat | p < c.w :: Sent(c, side.Peer(), peer[p], q) == k
  {
    forall p: nat | p < c.w ensures k <= Share(h.picks, c.w, p) {
      CleanCounter(c, h, peer, side, g, q, p);
    }
    SharesForce(h.picks, c.w, k);
    var sent := SentAll(c, side.Peer(), peer, q);
    SumAtMost(sent, k);
    SumSaturated(sent, k);
    forall p: nat | p < c.w ensures Sent(c, side.Peer(), peer[p], q) == k {
      assert sent[p] == k;
    }
  }

  /** ... and nothing is left over: no counter, no worker picked, the cursor back home. */
  lemma HalfSettled(c: Config, h: Half, peer: seq<Worker>, side: Side, g: nat, q: nat, k: nat)
    requires c.Valid() && HalfShape(c, h) && |peer| == c.w && HalfOk(c, h, peer, side, g, q, NoExcess(c))
    requires c.Prefill(q) == 0
    requires forall p: nat | p < c.w :: Taken(c, side, h.workers[p], q) == k
    requires forall p: nat | p < c.w :: Sent(c, side.Peer(), peer[p], q) <= k
    ensures HalfQuiet(c, h, g)
    ensures forall p: nat | p < c.w :: Sent(c, side.Peer(), peer[p], q) == k
  {
    HalfDelivered(c, h, peer, side, g, q, k);
    RoundsLeft(c, h, peer, side, g, q, k);
  }

  /** After k whole rounds a worker that took k has its prefill left and the cursor is home. */
  lemma RoundsLeft(c: Config, h: Half, peer: seq<Worker>, side: Side, g: nat, q: nat, k: nat)
    requires c.Valid() && HalfShape(c, h) && HalfOk(c, h, peer, side, g, q, NoExcess(c))
    requires h.picks == c.w * k
    requires forall p: nat | p < c.w :: Taken(c, side, h.workers[p], q) == k
    ensures h.cursor == g
    ensures forall p: nat | p < c.w :: h.syncs[p] + HeldFor(c, h, g, p) == c.Prefill(q)
    ensures c.Prefill(q) == 0 ==> h.held.None?
  {
    ShareWholeRounds(k, c.w, 0);
    forall p: nat | p < c.w ensures h.syncs[p] + HeldFor(c, h, g, p) == c.Prefill(q) {
      ShareWholeRounds(k, c.w, p);
      CleanCounter(c, h, peer, side, g, q, p);
    }
    if h.held.Some? {
      var p: nat :| p < c.w && h.held.value == WorkerId(c.rx, g, p);
      assert HeldFor(c, h, g, p) == 1;
    }
  }

  /** Thread 0 at the very first reset: nobody has sent anything. */
  lemma FirstResetSettled(c: Config, s: Pair, side: Side, g: nat)
    requires c.Valid() && Inv(c, s) && InScope(c, s) && AtReset(c, s, side) && g < c.rx
    requires s.StageAt(c, side, 0, 0) == 0
    ensures HalfQuiet(c, s.Of(side)[g], g)
  {
    assert PointAt(c, 1).ProcBarrier?;
    assert !s.Reached(c, 1);
    assert NotPast(c, s, 1);
    var h := s.Of(side)[g];
    var peer := s.Of(side.Peer())[g].workers;
    assert HalfAtOk(c, s, side, g, NoExcess(c));
    forall p: nat | p < c.w
      ensures Sent(c, side.Peer(), peer[p], 0) == 0 && Taken(c, side, h.workers[p], 0) == 0
    {
      assert s.StageAt(c, side.Peer(), g, p) <= 1;
      assert s.StageAt(c, side, g, p) <= 1;
    }
    HalfSettled(c, h, peer, side, g, 0, 0);
  }

  /** All workers of a process have finished the loop of its phase: then everything its peer could
      send in that phase has been sent and dispatched, one full share to each worker. */
  lemma LoopOver(c: Config, s: Pair, side: Side, g: nat, p: nat, q: nat)
    requires s.Shape(c) && WorkersOk(c, s) && g < c.rx && p < c.w && s.SideReached(c, side, c.LoopStage(q) + 1)
    ensures Sent(c, side.Peer(), s.Of(side.Peer())[g].workers[p], q) <= c.Iters(q)
    ensures Taken(c, side, s.Of(side)[g].workers[p], q) == c.Iters(q)
  {
    assert WorkerOk(c, s.WorkerAt(c, side.Peer(), g, p));
    assert s.StageAt(c, side, g, p) >= c.LoopStage(q) + 1;
  }

  lemma AllTaken(c: Config, s: Pair, side: Side, g: nat)
    requires c.Valid() && Inv(c, s) && InScope(c, s) && g < c.rx
    requires c.Prefill(Phase(c, s, side)) == 0
    requires s.SideReached(c, side, c.LoopStage(Phase(c, s, side)) + 1)
    ensures HalfQuiet(c, s.Of(side)[g], g)
    ensures var q := Phase(c, s, side);
            forall p: nat | p < c.w :: Sent(c, side.Peer(), s.WorkerAt(c, side.Peer(), g, p), q) == c.Iters(q)
  {
    var q := Phase(c, s, side);
    var h, peer := s.Of(side)[g], s.Of(side.Peer())[g].workers;
    assert HalfAtOk(c, s, side, g, NoExcess(c));
    forall p: nat | p < c.w
      ensures Sent(c, side.Peer(), peer[p], q) <= c.Iters(q) && Taken(c, side, h.workers[p], q) == c.Iters(q)
    {
      LoopOver(c, s, side, g, p, q);
    }
    HalfSettled(c, h, peer, side, g, q, c.Iters(q));
    forall p: nat | p < c.w
      ensures Sent(c, side.Peer(), s.WorkerAt(c, side.Peer(), g, p), q) == c.Iters(q)
    {
      assert s.WorkerAt(c, side.Peer(), g, p) == peer[p];
    }
  }

  /** Past the first reset, a thread 0 that stands at a reset has seen its whole process finish. */
  lemma ResetAfterLoop(c: Config, s: Pair, side: Side)
    requires c.Valid() && s.Shape(c) && BarrierOk(c, s) && AtReset(c, s, side) && s.StageAt(c, side, 0, 0) > 0
    ensures s.SideReached(c, side, c.LoopStage(Phase(c, s, side)) + 1)
  {
    var b := s.StageAt(c, side, 0, 0) - 1;
    BarrierBeforeReset(c, b + 1);
    assert !SideNotPast(c, s, side, b);
  }

  lemma BarrierBeforeReset(c: Config, stage: nat)
    requires PointAt(c, stage).ResetPoint? && stage > 0
    ensures c.LoopStage(PhaseOf(c, stage)) + 1 == stage - 1
    ensures PointAt(c, stage - 1).ProcBarrier? || PointAt(c, stage - 1).ThreadBarrier?
  {
  }

  /** Reset safety: no message towards the process, all its counters 0, all its cursors home. */
  lemma ResetIsSafe(c: Config, s: Pair, side: Side)
    requires c.Valid() && Inv(c, s) && InScope(c, s) && AtReset(c, s, side)
    requires s.StageAt(c, side, 0, 0) > 0 ==> c.Prefill(Phase(c, s, side)) == 0
    ensures Quiescent(c, s, side)
  {
    if s.StageAt(c, side, 0, 0) == 0 {
      forall g: nat | g < c.rx ensures HalfQuiet(c, s.Of(side)[g], g) {
        FirstResetSettled(c, s, side, g);
      }
    } else {
      ResetAfterLoop(c, s, side);
      forall g: nat | g < c.rx
        ensures HalfQuiet(c, s.Of(side)[g], g)
      {
        AllTaken(c, s, side, g);
      }
    }
  }

  lemma IdleAfterLoop(c: Config, s: Pair, side: Side, g: nat, q: nat)
    requires c.Valid() && s.Shape(c) && WorkersOk(c, s) && g < c.rx && s.SideReached(c, side, c.LoopStage(q) + 1)
    requires q == Phase(c, s, side) && c.Iters(q) == 0 && HalfAtOk(c, s, side, g, NoExcess(c))
    ensures HalfCalm(c, s.Of(side)[g], g)
    ensures forall p: nat | p < c.w :: Sent(c, side.Peer(), s.WorkerAt(c, side.Peer(), g, p), q) == 0
  {
    var peer := s.Of(side.Peer())[g].workers;
    forall p: nat | p < c.w
      ensures Sent(c, side.Peer(), peer[p], q) == 0 && s.WorkerAt(c, side.Peer(), g, p) == peer[p]
    {
      LoopOver(c, s, side, g, p, q);
    }
    IdleLoop(c, s.Of(side)[g], peer, side, g, q);
  }

  lemma CalmAfterLoop(c: Config, s: Pair, side: Side, g: nat)
    requires c.Valid() && Inv(c, s) && InScope(c, s) && AtReset(c, s, side) && s.StageAt(c, side, 0, 0) > 0
    requires g < c.rx && Plain(c, Phase(c, s, side))
    ensures HalfCalm(c, s.Of(side)[g], g)
    ensures var q := Phase(c, s, side);
            forall p: nat | p < c.w :: Sent(c, side.Peer(), s.WorkerAt(c, side.Peer(), g, p), q) == c.Iters(q)
  {
    var q := Phase(c, s, side);
    ResetAfterLoop(c, s, side);
    if c.Prefill(q) == 0 {
      AllTaken(c, s, side, g);
    } else {
      assert HalfAtOk(c, s, side, g, NoExcess(c));
      IdleAfterLoop(c, s, side, g, q);
    }
  }

  /** A reset in scope that follows a plain loop finds everything calm. */
  lemma ResetIsCalm(c: Config, s: Pair, side: Side, g: nat)
    requires c.Valid() && Inv(c, s) && InScope(c, s) && AtReset(c, s, side) && g < c.rx
    requires s.StageAt(c, side, 0, 0) > 0 ==> Plain(c, Phase(c, s, side))
    ensures HalfCalm(c, s.Of(side)[g], g)
  {
    if s.StageAt(c, side, 0, 0) == 0 {
      FirstResetSettled(c, s, side, g);
    } else {
      CalmAfterLoop(c, s, side, g);
    }
  }

  // ---- Every step preserves the invariant ----

  lemma HalfUntouched(c: Config, s: Pair, open: bool, step: Step, side: Side, g: nat)
    requires c.Valid() && s.Shape(c) && Enabled(c, s, open, step) && !(IsLeadReset(step) && step.side == side)
    requires g < c.rx && g != step.g
    ensures Apply(c, s, open, step).Shape(c) && Apply(c, s, open, step).Of(side)[g] == s.Of(side)[g]
  {
    ApplyShape(c, s, open, step);
  }

  lemma WorkersUntouched(c: Config, s: Pair, open: bool, step: Step, side: Side, g: nat)
    requires c.Valid() && s.Shape(c) && Enabled(c, s, open, step) && g < c.rx && g != step.g
    ensures Apply(c, s, open, step).Shape(c) && Apply(c, s, open, step).Of(side)[g].workers == s.Of(side)[g].workers
  {
    ApplyShape(c, s, open, step);
  }

  /** Halves of the groups a step does not touch, in a process whose phase it does not change. */
  lemma OtherGroupsOk(c: Config, s: Pair, open: bool, step: Step, side: Side, g: nat, x: Excess)
    requires c.Valid() && s.Shape(c) && Enabled(c, s, open, step) && !(IsLeadReset(step) && step.side == side)
    requires g < c.rx && g != step.g && HalfAtOk(c, s, side, g, x)
    ensures Apply(c, s, open, step).Shape(c) && HalfAtOk(c, Apply(c, s, open, step), side, g, x)
  {
    PhaseKept(c, s, open, step, side);
    HalfUntouched(c, s, open, step, side, g);
    WorkersUntouched(c, s, open, step, side.Peer(), g);
  }

  /** A progress-thread step keeps the books of the half it acts on ... */
  lemma LocalProgressOk(c: Config, h: Half, peer: seq<Worker>, side: Side, g: nat, q: nat, x: Excess, step: Step)
    requires c.Valid() && g < c.rx && step.g == g && HalfShape(c, h) && |x.counts| == c.w
    requires HalfOk(c, h, peer, side, g, q, x) && !IsWorkerStep(step)
    requires step.Arrive? ==> h.wire > 0 && h.posted > 0
    requires step.Poll? ==> h.polled == 0 && step.n <= h.cq
    requires step.Pick? ==> h.polled > 0 && h.held.None?
    requires step.Bump? ==> h.held.Some? && h.held.value / c.rx < c.w
    ensures HalfShape(c, LocalStep(c, h, step)) && HalfOk(c, LocalStep(c, h, step), peer, side, g, q, x)
  {
    match step {
      case Arrive(_, _) => ArriveOk(c, h, peer, side, g, q, x);
      case Poll(_, _, n) => PollOk(c, h, peer, side, g, q, x, n);
      case Pick(_, _) => PickOk(c, h, peer, side, g, q, x);
      case Bump(_, _) => BumpOk(c, h, peer, side, g, q, x);
      case Repost(_, _) => RepostOk(c, h, peer, side, g, q, x);
    }
  }

  lemma ProgressStepOk(c: Config, s: Pair, open: bool, step: Step, x: Excess)
    requires c.Valid() && s.Shape(c) && Enabled(c, s, open, step) && !IsWorkerStep(step)
    requires HalfAtOk(c, s, step.side, step.g, x)
    ensures Apply(c, s, open, step).Shape(c) && HalfAtOk(c, Apply(c, s, open, step), step.side, step.g, x)
  {
    PhaseKept(c, s, open, step, step.side);
    var side, g := step.side, step.g;
    LocalProgressOk(c, s.Of(side)[g], s.Of(side.Peer())[g].workers, side, g, Phase(c, s, side), x, step);
  }

  /** ... and does not concern the books of the half on the other side. */
  lemma ProgressStepPeerOk(c: Config, s: Pair, open: bool, step: Step, x: Excess)
    requires c.Valid() && s.Shape(c) && Enabled(c, s, open, step) && !IsWorkerStep(step)
    requires HalfAtOk(c, s, step.side.Peer(), step.g, x)
    ensures Apply(c, s, open, step).Shape(c) && HalfAtOk(c, Apply(c, s, open, step), step.side.Peer(), step.g, x)
  {
    PhaseKept(c, s, open, step, step.side.Peer());
    var s' := Apply(c, s, open, step);
    assert s'.Of(step.side.Peer())[step.g] == s.Of(step.side.Peer())[step.g];
    assert s'.Of(step.side)[step.g].workers == s.Of(step.side)[step.g].workers;
  }

  /** Which counts a worker step moves: Take moves `taken` in the worker's own phase, Send moves
      `sent` in the worker's own phase, the other steps move neither. */
  lemma WorkerCounts(c: Config, s: Pair, open: bool, step: Step, q: nat)
    requires c.Valid() && s.Shape(c) && WorkersOk(c, s) && Enabled(c, s, open, step) && IsWorkerStep(step)
    ensures var h := s.Of(step.side)[step.g];
            var w, w' := h.workers[step.p], LocalStep(c, h, step).workers[step.p];
            && Sent(c, step.side, w', q) == Sent(c, step.side, w, q) + (if step.Send? && q == w.stage / 4 then 1 else 0)
            && Taken(c, step.side, w', q) == Taken(c, step.side, w, q) + (if step.Take? && q == w.stage / 4 then 1 else 0)
  {
    assert WorkerOk(c, s.WorkerAt(c, step.side, step.g, step.p));
  }

  /** In scope, a sender of phase q has a peer whose counters are still in phase q. */
  lemma SendPhase(c: Config, s: Pair, open: bool, step: Step)
    requires c.Valid() && Inv(c, s) && InScope(c, s) && Enabled(c, s, open, step) && step.Send?
    ensures Phase(c, s, step.side.Peer()) == s.StageAt(c, step.side, step.g, step.p) / 4
  {
    var w := s.WorkerAt(c, step.side, step.g, step.p);
    var q := w.stage / 4;
    PeerPhase(c, s, step.side, step.g, step.p);
    assert step.side.Peer().Peer() == step.side;
    assert CaughtUp(c, s, step.side.Peer());
    assert HasSent(c, s, step.side, q) ==> Sent(c, step.side, w, q) == c.Iters(q);
  }

  lemma LocalWorkerOk(c: Config, h: Half, peer: seq<Worker>, side: Side, g: nat, q: nat, x: Excess, step: Step)
    requires c.Valid() && HalfShape(c, h) && |x.counts| == c.w && HalfOk(c, h, peer, side, g, q, x)
    requires IsWorkerStep(step) && step.p < c.w && (step.Take? ==> h.syncs[step.p] > 0)
    requires Taken(c, side, LocalStep(c, h, step).workers[step.p], q)
             == Taken(c, side, h.workers[step.p], q) + (if step.Take? then 1 else 0)
    ensures HalfOk(c, LocalStep(c, h, step), peer, side, g, q, x)
  {
    var h' := LocalStep(c, h, step);
    var p, used := step.p, if step.Take? then 1 else 0;
    OwnWorkerOk(c, h, peer, side, g, q, x, p, h'.workers[p], used);
    assert h'.syncs == h.syncs[p := h.syncs[p] - used];
    assert h' == SetWorker(h, p, h'.workers[p]).(syncs := h.syncs[p := h.syncs[p] - used]);
  }

  lemma WorkerStepOwnOk(c: Config, s: Pair, open: bool, step: Step, x: Excess)
    requires c.Valid() && s.Shape(c) && WorkersOk(c, s) && BarrierOk(c, s) && Enabled(c, s, open, step)
    requires IsWorkerStep(step) && !IsLeadReset(step) && HalfAtOk(c, s, step.side, step.g, x)
    ensures Apply(c, s, open, step).Shape(c) && HalfAtOk(c, Apply(c, s, open, step), step.side, step.g, x)
  {
    var side, g := step.side, step.g;
    if step.Take? {
      OwnPhase(c, s, side, g, step.p);
    }
    PhaseKept(c, s, open, step, side);
    WorkerCounts(c, s, open, step, Phase(c, s, side));
    LocalWorkerOk(c, s.Of(side)[g], s.Of(side.Peer())[g].workers, side, g, Phase(c, s, side), x, step);
    assert Apply(c, s, open, step).Of(side.Peer())[g].workers == s.Of(side.Peer())[g].workers;
  }

  /** A message from a worker of an earlier phase than its receiver's counters. */
  predicate LateSend(c: Config, s: Pair, step: Step)
    requires c.Valid() && s.Shape(c)
  {
    && step.Send? && step.g < c.rx && step.p < c.w
    && Phase(c, s, step.side.Peer()) != s.StageAt(c, step.side, step.g, step.p) / 4
  }

  /** What is carried over after a step of the other side. */
  function ExcessAfter(c: Config, s: Pair, step: Step, x: Excess): Excess
    requires c.Valid() && s.Shape(c)
  {
    if LateSend(c, s, step) then x.(wire := x.wire + 1) else x
  }

  /** What a worker step does to the two halves of its group, as the other side's books see them. */
  lemma WorkerStepGroup(c: Config, s: Pair, open: bool, step: Step)
    requires c.Valid() && s.Shape(c) && Enabled(c, s, open, step) && IsWorkerStep(step)
    ensures Apply(c, s, open, step).Shape(c)
    ensures var s', side, g := Apply(c, s, open, step), step.side, step.g;
            var own, h := s.Of(side)[g], s.Of(side.Peer())[g];
            && s'.Of(side)[g].workers == own.workers[step.p := LocalStep(c, own, step).workers[step.p]]
            && s'.Of(side.Peer())[g] == h.(wire := h.wire + if step.Send? then 1 else 0)
  {
    ApplyShape(c, s, open, step);
  }

  lemma WorkerStepPeerOk(c: Config, s: Pair, open: bool, step: Step, x: Excess)
    requires c.Valid() && s.Shape(c) && WorkersOk(c, s) && Enabled(c, s, open, step) && IsWorkerStep(step)
    requires HalfAtOk(c, s, step.side.Peer(), step.g, x)
    ensures Apply(c, s, open, step).Shape(c)
    ensures HalfAtOk(c, Apply(c, s, open, step), step.side.Peer(), step.g, ExcessAfter(c, s, step, x))
  {
    var side, g, p := step.side, step.g, step.p;
    var q := Phase(c, s, side.Peer());
    PhaseKept(c, s, open, step, side.Peer());
    WorkerStepGroup(c, s, open, step);
    PeerBooks(c, s, open, step, x, q);
    assert side.Peer().Peer() == side;
  }

  /** What a worker sends counts in the phase of the other side or comes late. */
  lemma SentBalance(c: Config, s: Pair, open: bool, step: Step, q: nat)
    requires c.Valid() && s.Shape(c) && WorkersOk(c, s) && Enabled(c, s, open, step) && IsWorkerStep(step)
    requires q == Phase(c, s, step.side.Peer())
    ensures var own := s.Of(step.side)[step.g];
            Sent(c, step.side, LocalStep(c, own, step).workers[step.p], q) + (if LateSend(c, s, step) then 1 else 0)
            == Sent(c, step.side, own.workers[step.p], q) + (if step.Send? then 1 else 0)
  {
    WorkerCounts(c, s, open, step, q);
  }

  /** The books of the other side, with the worker's new state. */
  lemma PeerBooks(c: Config, s: Pair, open: bool, step: Step, x: Excess, q: nat)
    requires c.Valid() && s.Shape(c) && WorkersOk(c, s) && Enabled(c, s, open, step) && IsWorkerStep(step)
    requires q == Phase(c, s, step.side.Peer()) && HalfAtOk(c, s, step.side.Peer(), step.g, x)
    ensures |ExcessAfter(c, s, step, x).counts| == c.w
    ensures var own, h := s.Of(step.side)[step.g], s.Of(step.side.Peer())[step.g];
            HalfOk(c, h.(wire := h.wire + if step.Send? then 1 else 0),
                   own.workers[step.p := LocalStep(c, own, step).workers[step.p]],
                   step.side.Peer(), step.g, q, ExcessAfter(c, s, step, x))
  {
    var own, h := s.Of(step.side)[step.g], s.Of(step.side.Peer())[step.g];
    var more, late := if step.Send? then 1 else 0, if LateSend(c, s, step) then 1 else 0;
    assert step.side.Peer().Peer() == step.side;
    SentBalance(c, s, open, step, q);
    PeerWorkerOk(c, h, own.workers, step.side.Peer(), step.g, q, x, step.p, LocalStep(c, own, step).workers[step.p], more, late);
    assert ExcessAfter(c, s, step, x) == x.(wire := x.wire + late);
  }

  /** A worker that has sent all of phase j keeps having sent all of phase j. */
  lemma SentAllStays(c: Config, s: Pair, open: bool, step: Step, side: Side, g: nat, p: nat, j: nat)
    requires c.Valid() && s.Shape(c) && WorkersOk(c, s) && Enabled(c, s, open, step) && g < c.rx && p < c.w
    requires Sent(c, side, s.WorkerAt(c, side, g, p), j) == c.Iters(j)
    ensures Apply(c, s, open, step).Shape(c)
    ensures Sent(c, side, Apply(c, s, open, step).WorkerAt(c, side, g, p), j) == c.Iters(j)
  {
    ApplyWorkers(c, s, open, step);
    if IsWorkerStep(step) && step.side == side && step.g == g && step.p == p {
      WorkerCounts(c, s, open, step, j);
      assert Apply(c, s, open, step).WorkerAt(c, side, g, p) == LocalStep(c, s.Of(side)[g], step).workers[p];
    }
  }

  lemma HasSentKept(c: Config, s: Pair, open: bool, step: Step, side: Side, j: nat)
    requires c.Valid() && s.Shape(c) && WorkersOk(c, s) && HasSent(c, s, side, j) && Enabled(c, s, open, step)
    ensures Apply(c, s, open, step).Shape(c) && HasSent(c, Apply(c, s, open, step), side, j)
  {
    ApplyShape(c, s, open, step);
    forall g: nat, p: nat | g < c.rx && p < c.w
      ensures Sent(c, side, Apply(c, s, open, step).WorkerAt(c, side, g, p), j) == c.Iters(j)
    {
      SentAllStays(c, s, open, step, side, g, p, j);
    }
  }

  lemma CaughtUpKept(c: Config, s: Pair, open: bool, step: Step, side: Side)
    requires c.Valid() && s.Shape(c) && WorkersOk(c, s) && CaughtUp(c, s, side) && Enabled(c, s, open, step)
    requires !(IsLeadReset(step) && step.side == side)
    ensures Apply(c, s, open, step).Shape(c) && CaughtUp(c, Apply(c, s, open, step), side)
  {
    PhaseKept(c, s, open, step, side);
    if Phase(c, s, side) >= 1 {
      HasSentKept(c, s, open, step, side.Peer(), Phase(c, s, side) - 1);
    }
  }

  /** While thread 0 of a process stands at the reset that opens phase k, nobody anywhere has
      passed the barrier in front of the loop of phase k. */
  lemma BarrierAhead(c: Config, s: Pair, at: Side, side: Side, g: nat, p: nat)
    requires c.Valid() && s.Shape(c) && BarrierOk(c, s) && AtReset(c, s, at)
    requires g < c.rx && p < c.w
    ensures s.StageAt(c, side, g, p) <= s.StageAt(c, at, 0, 0) + 1
  {
    var b := s.StageAt(c, at, 0, 0) + 1;
    assert PointAt(c, b).ProcBarrier?;
    assert !s.Reached(c, b);
    assert NotPast(c, s, b);
  }

  lemma NobodyInPhase(c: Config, s: Pair, open: bool, step: Step, side: Side, g: nat, p: nat)
    requires c.Valid() && s.Shape(c) && BarrierOk(c, s) && Enabled(c, s, open, step) && IsLeadReset(step)
    requires g < c.rx && p < c.w
    ensures Apply(c, s, open, step).Shape(c)
    ensures Apply(c, s, open, step).StageAt(c, side, g, p) < c.LoopStage(s.StageAt(c, step.side, 0, 0) / 4)
  {
    ApplyWorkers(c, s, open, step);
    BarrierAhead(c, s, step.side, side, g, p);
  }

  /** What the lead reset leaves behind in a half: the messages under way, the worker picked, and what
      is left of dispatches it raced with. */
  function Carry(c: Config, h: Half, g: nat, r: Race): Excess
    requires |r.kept| == c.w
  {
    Excess(InFlight(h), seq(c.w, p requires 0 <= p < c.w => HeldFor(c, h, g, p) + r.kept[p]), r.start)
  }

  lemma CalmCarriesNothing(c: Config, h: Half, g: nat, r: Race)
    requires HalfShape(c, h) && HalfCalm(c, h, g) && RaceOk(c, h, r)
    ensures Carry(c, h, g, r) == NoExcess(c)
  {
    assert Carry(c, h, g, r).counts == NoExcess(c).counts;
  }

  /** What a lead reset makes of a half. */
  lemma LeadResetState(c: Config, s: Pair, open: bool, step: Step, g: nat)
    requires c.Valid() && s.Shape(c) && Enabled(c, s, open, step) && IsLeadReset(step) && g < c.rx
    ensures Apply(c, s, open, step).Shape(c)
    ensures var h, h' := s.Of(step.side)[g], Apply(c, s, open, step).Of(step.side)[g];
            && HalfShape(c, h) && RaceOk(c, h, step.races[g])
            && h' == ResetHalf(c, h, g, c.Prefill(s.StageAt(c, step.side, 0, 0) / 4), step.races[g]).(workers := h'.workers)
  {
    ApplyShape(c, s, open, step);
    assert RaceOk(c, s.Of(step.side)[g], step.races[g]);
  }

  /** The lead reset opens phase k; the books balance if what was under way is carried over, whatever
      the reset raced with. */
  lemma LeadResetHalf(c: Config, s: Pair, open: bool, step: Step, g: nat)
    requires c.Valid() && s.Shape(c) && BarrierOk(c, s) && Enabled(c, s, open, step) && IsLeadReset(step)
    requires g < c.rx && HeldOk(c, s.Of(step.side)[g], g) && RaceOk(c, s.Of(step.side)[g], step.races[g])
    ensures Apply(c, s, open, step).Shape(c)
    ensures HalfAtOk(c, Apply(c, s, open, step), step.side, g, Carry(c, s.Of(step.side)[g], g, step.races[g]))
  {
    LeadResetPhase(c, s, open, step);
    LeadResetState(c, s, open, step, g);
    var side := step.side;
    var s' := Apply(c, s, open, step);
    var k := s.StageAt(c, side, 0, 0) / 4;
    var h', peer := s'.Of(side)[g], s'.Of(side.Peer())[g].workers;
    forall p: nat | p < c.w
      ensures Sent(c, side.Peer(), peer[p], k) == 0 && Taken(c, side, h'.workers[p], k) == 0
    {
      NobodyInPhase(c, s, open, step, side.Peer(), g, p);
      NobodyInPhase(c, s, open, step, side, g, p);
      assert peer[p] == s'.WorkerAt(c, side.Peer(), g, p);
      assert h'.workers[p] == s'.WorkerAt(c, side, g, p);
    }
    assert Carry(c, h', g, step.races[g]) == Carry(c, s.Of(side)[g], g, step.races[g]);
    FreshHalf(c, h', peer, side, g, k, step.races[g]);
  }

  /** Fresh counters before anybody has started. */
  lemma FreshHalf(c: Config, h: Half, peer: seq<Worker>, side: Side, g: nat, k: nat, r: Race)
    requires c.Valid() && HalfShape(c, h) && |peer| == c.w && |r.kept| == c.w && r.start < c.w
    requires HeldOk(c, h, g) && h.cursor == WorkerId(c.rx, g, r.start) && h.picks == 0 && h.bumps == 0
    requires forall p: nat | p < c.w :: h.syncs[p] == c.Prefill(k) + r.kept[p]
    requires forall p: nat | p < c.w :: Sent(c, side.Peer(), peer[p], k) == 0 && Taken(c, side, h.workers[p], k) == 0
    ensures HalfOk(c, h, peer, side, g, k, Carry(c, h, g, r))
  {
    SumAtMost(SentAll(c, side.Peer(), peer, k), 0);
    Small(r.start, c.w);
    if h.held.Some? {
      var p: nat :| p < c.w && h.held.value == WorkerId(c.rx, g, p);
      assert Carry(c, h, g, r).counts[p] != NoExcess(c).counts[p];
    }
  }

  /** The lead reset leaves the other side's books alone. */
  lemma LeadResetPeerHalf(c: Config, s: Pair, open: bool, step: Step, g: nat, x: Excess)
    requires c.Valid() && s.Shape(c) && WorkersOk(c, s) && Enabled(c, s, open, step) && IsLeadReset(step)
    requires g < c.rx && HalfAtOk(c, s, step.side.Peer(), g, x)
    ensures Apply(c, s, open, step).Shape(c) && HalfAtOk(c, Apply(c, s, open, step), step.side.Peer(), g, x)
  {
    if g == 0 {
      WorkerStepPeerOk(c, s, open, step, x);
    } else {
      OtherGroupsOk(c, s, open, step, step.side.Peer(), g, x);
    }
  }

  /** Any step but the half's own lead reset: the books go on, with what is carried over. */
  lemma HalfKept(c: Config, s: Pair, open: bool, step: Step, side: Side, g: nat, x: Excess)
    requires c.Valid() && s.Shape(c) && WorkersOk(c, s) && BarrierOk(c, s) && Enabled(c, s, open, step)
    requires !(IsLeadReset(step) && step.side == side) && g < c.rx && HalfAtOk(c, s, side, g, x)
    ensures Apply(c, s, open, step).Shape(c)
    ensures HalfAtOk(c, Apply(c, s, open, step), side, g,
                     if side != step.side && g == step.g then ExcessAfter(c, s, step, x) else x)
  {
    if g != step.g {
      OtherGroupsOk(c, s, open, step, side, g, x);
    } else if IsWorkerStep(step) {
      if side == step.side {
        WorkerStepOwnOk(c, s, open, step, x);
      } else {
        WorkerStepPeerOk(c, s, open, step, x);
      }
    } else if side == step.side {
      ProgressStepOk(c, s, open, step, x);
    } else {
      ProgressStepPeerOk(c, s, open, step, x);
    }
  }

  /** What is carried over never shrinks within a phase. */
  lemma CarriedKept(c: Config, s: Pair, open: bool, step: Step, side: Side, g: nat, floor: nat)
    requires c.Valid() && s.Shape(c) && WorkersOk(c, s) && BarrierOk(c, s) && Enabled(c, s, open, step)
    requires !(IsLeadReset(step) && step.side == side) && g < c.rx && Carried(c, s, side, g, floor)
    ensures Apply(c, s, open, step).Shape(c) && Carried(c, Apply(c, s, open, step), side, g, floor)
  {
    var x: Excess :| x.wire >= floor && HalfAtOk(c, s, side, g, x);
    HalfKept(c, s, open, step, side, g, x);
  }

  /** A lead reset carries over everything under way. */
  lemma LeadResetCarries(c: Config, s: Pair, open: bool, step: Step, g: nat)
    requires c.Valid() && s.Shape(c) && BarrierOk(c, s) && Enabled(c, s, open, step) && IsLeadReset(step)
    requires g < c.rx && Carried(c, s, step.side, g, 0)
    ensures Apply(c, s, open, step).Shape(c)
    ensures Carried(c, Apply(c, s, open, step), step.side, g, InFlight(s.Of(step.side)[g]))
  {
    var x: Excess :| HalfAtOk(c, s, step.side, g, x);
    assert RaceOk(c, s.Of(step.side)[g], step.races[g]);
    LeadResetHalf(c, s, open, step, g);
  }

  lemma AllCarriedKept(c: Config, s: Pair, open: bool, step: Step)
    requires c.Valid() && s.Shape(c) && WorkersOk(c, s) && BarrierOk(c, s) && AllCarried(c, s)
    requires Enabled(c, s, open, step)
    ensures Apply(c, s, open, step).Shape(c) && AllCarried(c, Apply(c, s, open, step))
  {
    ApplyShape(c, s, open, step);
    forall side: Side, g: nat | g < c.rx ensures Carried(c, Apply(c, s, open, step), side, g, 0) {
      assert Carried(c, s, side, g, 0);
      if IsLeadReset(step) && step.side == side {
        LeadResetCarries(c, s, open, step, g);
      } else {
        CarriedKept(c, s, open, step, side, g, 0);
      }
    }
  }

  // ---- In scope nothing is carried over ----

  lemma PeerHasSent(c: Config, s: Pair, side: Side)
    requires c.Valid() && Inv(c, s) && InScope(c, s) && AtReset(c, s, side) && s.StageAt(c, side, 0, 0) > 0
    requires Plain(c, Phase(c, s, side))
    ensures HasSent(c, s, side.Peer(), Phase(c, s, side))
  {
    forall g: nat, p: nat | g < c.rx && p < c.w
      ensures Sent(c, side.Peer(), s.WorkerAt(c, side.Peer(), g, p), Phase(c, s, side)) == c.Iters(Phase(c, s, side))
    {
      CalmAfterLoop(c, s, side, g);
    }
  }

  lemma LeadResetHasSent(c: Config, s: Pair, open: bool, step: Step)
    requires c.Valid() && Inv(c, s) && InScope(c, s) && Enabled(c, s, open, step) && IsLeadReset(step)
    requires s.StageAt(c, step.side, 0, 0) > 0 && Plain(c, Phase(c, s, step.side))
    ensures Apply(c, s, open, step).Shape(c)
    ensures HasSent(c, Apply(c, s, open, step), step.side.Peer(), Phase(c, s, step.side))
  {
    PeerHasSent(c, s, step.side);
    HasSentKept(c, s, open, step, step.side.Peer(), Phase(c, s, step.side));
  }

  lemma LeadResetCaughtUp(c: Config, s: Pair, open: bool, step: Step)
    requires c.Valid() && Inv(c, s) && InScope(c, s) && Enabled(c, s, open, step) && IsLeadReset(step)
    requires s.StageAt(c, step.side, 0, 0) > 0 ==> Plain(c, Phase(c, s, step.side))
    ensures Apply(c, s, open, step).Shape(c) && CaughtUp(c, Apply(c, s, open, step), step.side)
  {
    LeadResetPhase(c, s, open, step);
    if s.StageAt(c, step.side, 0, 0) > 0 {
      LeadResetHasSent(c, s, open, step);
      CaughtUpAt(c, Apply(c, s, open, step), step.side, Phase(c, s, step.side));
    }
  }

  lemma CaughtUpAt(c: Config, s: Pair, side: Side, q: nat)
    requires c.Valid() && s.Shape(c) && Phase(c, s, side) == q + 1 && HasSent(c, s, side.Peer(), q)
    ensures CaughtUp(c, s, side)
  {
  }

  /** One half over a lead reset in scope. */
  lemma LeadResetClean(c: Config, s: Pair, open: bool, step: Step, side: Side, g: nat)
    requires c.Valid() && Inv(c, s) && InScope(c, s) && Enabled(c, s, open, step) && IsLeadReset(step)
    requires s.StageAt(c, step.side, 0, 0) > 0 ==> Plain(c, Phase(c, s, step.side))
    requires g < c.rx
    ensures Apply(c, s, open, step).Shape(c) && HalfAtOk(c, Apply(c, s, open, step), side, g, NoExcess(c))
  {
    assert HalfAtOk(c, s, side, g, NoExcess(c));
    if side == step.side {
      ResetIsCalm(c, s, side, g);
      assert RaceOk(c, s.Of(side)[g], step.races[g]);
      CalmCarriesNothing(c, s.Of(side)[g], g, step.races[g]);
      LeadResetHalf(c, s, open, step, g);
    } else {
      LeadResetPeerHalf(c, s, open, step, g, NoExcess(c));
    }
  }

  lemma LeadResetKept(c: Config, s: Pair, open: bool, step: Step)
    requires c.Valid() && Inv(c, s) && InScope(c, s) && Enabled(c, s, open, step) && IsLeadReset(step)
    requires s.StageAt(c, step.side, 0, 0) > 0 ==> Plain(c, Phase(c, s, step.side))
    ensures Apply(c, s, open, step).Shape(c) && HalvesOk(c, Apply(c, s, open, step))
    ensures CaughtUp(c, Apply(c, s, open, step), step.side)
    ensures CaughtUp(c, Apply(c, s, open, step), step.side.Peer())
  {
    LeadResetCaughtUp(c, s, open, step);
    CaughtUpKept(c, s, open, step, step.side.Peer());
    forall side: Side, g: nat | g < c.rx ensures HalfAtOk(c, Apply(c, s, open, step), side, g, NoExcess(c)) {
      LeadResetClean(c, s, open, step, side, g);
    }
  }

  lemma HalvesKept(c: Config, s: Pair, open: bool, step: Step)
    requires c.Valid() && Inv(c, s) && InScope(c, s) && Enabled(c, s, open, step) && !IsLeadReset(step)
    ensures Apply(c, s, open, step).Shape(c) && HalvesOk(c, Apply(c, s, open, step))
  {
    ApplyShape(c, s, open, step);
    if step.Send? {
      SendPhase(c, s, open, step);
    }
    forall side: Side, g: nat | g < c.rx ensures HalfAtOk(c, Apply(c, s, open, step), side, g, NoExcess(c)) {
      assert HalfAtOk(c, s, side, g, NoExcess(c));
      HalfKept(c, s, open, step, side, g, NoExcess(c));
    }
  }

  lemma ScopedKept(c: Config, s: Pair, open: bool, step: Step)
    requires c.Valid() && Inv(c, s) && Enabled(c, s, open, step)
    requires Apply(c, s, open, step).Shape(c) && InScope(c, Apply(c, s, open, step))
    ensures HalvesOk(c, Apply(c, s, open, step))
    ensures CaughtUp(c, Apply(c, s, open, step), Sender) && CaughtUp(c, Apply(c, s, open, step), Receiver)
  {
    if IsLeadReset(step) {
      LeadResetScoped(c, s, open, step);
      BothCaughtUp(c, Apply(c, s, open, step), step.side);
    } else {
      OtherScoped(c, s, open, step);
    }
  }

  lemma BothCaughtUp(c: Config, s: Pair, side: Side)
    requires c.Valid() && s.Shape(c) && CaughtUp(c, s, side) && CaughtUp(c, s, side.Peer())
    ensures CaughtUp(c, s, Sender) && CaughtUp(c, s, Receiver)
  {
  }

  /** A reset that stays in scope follows a plain loop. */
  lemma LeadResetAfterPlain(c: Config, s: Pair, open: bool, step: Step)
    requires c.Valid() && s.Shape(c) && Enabled(c, s, open, step) && IsLeadReset(step)
    requires Apply(c, s, open, step).Shape(c) && InScope(c, Apply(c, s, open, step))
    ensures s.StageAt(c, step.side, 0, 0) > 0 ==> Plain(c, Phase(c, s, step.side))
  {
    LeadResetPhase(c, s, open, step);
  }

  lemma LeadResetScoped(c: Config, s: Pair, open: bool, step: Step)
    requires c.Valid() && Inv(c, s) && Enabled(c, s, open, step) && IsLeadReset(step)
    requires Apply(c, s, open, step).Shape(c) && InScope(c, Apply(c, s, open, step))
    ensures HalvesOk(c, Apply(c, s, open, step))
    ensures CaughtUp(c, Apply(c, s, open, step), step.side)
    ensures CaughtUp(c, Apply(c, s, open, step), step.side.Peer())
  {
    ScopeBackward(c, s, open, step);
    LeadResetAfterPlain(c, s, open, step);
    LeadResetKept(c, s, open, step);
  }

  lemma OtherScoped(c: Config, s: Pair, open: bool, step: Step)
    requires c.Valid() && Inv(c, s) && Enabled(c, s, open, step) && !IsLeadReset(step)
    requires Apply(c, s, open, step).Shape(c) && InScope(c, Apply(c, s, open, step))
    ensures HalvesOk(c, Apply(c, s, open, step))
    ensures CaughtUp(c, Apply(c, s, open, step), Sender) && CaughtUp(c, Apply(c, s, open, step), Receiver)
  {
    ScopeBackward(c, s, open, step);
    HalvesKept(c, s, open, step);
    CaughtUpKept(c, s, open, step, Sender);
    CaughtUpKept(c, s, open, step, Receiver);
  }

  /** The invariant is preserved by every step of every thread. */
  lemma StepPreservesInv(c: Config, s: Pair, open: bool, step: Step)
    requires c.Valid() && Inv(c, s) && Enabled(c, s, open, step)
    ensures Inv(c, Apply(c, s, open, step))
  {
    WorkersKept(c, s, open, step);
    BarrierKept(c, s, open, step);
    SuppliesKept(c, s, open, step);
    AllCarriedKept(c, s, open, step);
    if InScope(c, Apply(c, s, open, step)) {
      ScopedKept(c, s, open, step);
    }
  }
}

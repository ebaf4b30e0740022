/** The bound on posted receives is exact: if it is exceeded, there is a run in which a message finds
    no posted receive. After a lazy run to the last measured loop, the workers of group 0 go on for as
    long as they can while the receiving progress thread hands out one full batch and posts nothing. */
module PingPongWorstCase {
  import opened Sums
  import opened RoundRobin
  import opened PingPong
  import opened PingPongSafety
  import opened PingPongProgress
  import opened PingPongTokens
  import opened PingPongSupply
  import opened PingPongRuns
  import opened PingPongLazy

  /** Everybody of group 0 is in the last loop. */
  predicate InLastLoop(c: Config, s: Pair)
    requires s.Shape(c) && c.Valid()
  {
    forall side: Side, p: nat | p < c.w :: s.StageAt(c, side, 0, p) == Goal(c)
  }

  /** The receiving progress thread has handed out no batch yet or one of 16, and reposted nothing. */
  predicate OneBatch(h: Half) {
    && h.picks == h.spent + HeldCount(h)
    && h.polled + HeldCount(h) + h.spent in {0, POLL_BATCH}
  }

  ghost predicate Rush(c: Config, s: Pair)
    requires c.Valid()
  {
    && Inv(c, s) && c.sizes > 0 && InLastLoop(c, s) && OneBatch(s.rcv[0])
    && CarriesAll(c, s, Sender) && CarriesAll(c, s, Receiver)
  }

  /** The steps of the rush: workers of group 0 send and take, the sending side delivers everything,
      the receiving side takes messages off the wire and hands out full batches. */
  predicate Rushing(step: Step) {
    && step.g == 0
    && match step
       case Send(_, _, _) => true
       case Take(_, _, _) => true
       case Arrive(_, _) => true
       case Poll(side, _, n) => side.Sender? || n == POLL_BATCH
       case Pick(_, _) => true
       case Bump(_, _) => true
       case Repost(side, _) => side.Sender?
       case _ => false
  }

  lemma LoopKept(c: Config, s: Pair, open: bool, step: Step)
    requires c.Valid() && s.Shape(c) && InLastLoop(c, s) && Enabled(c, s, open, step) && Rushing(step)
    ensures Apply(c, s, open, step).Shape(c) && InLastLoop(c, Apply(c, s, open, step))
  {
    ApplyWorkers(c, s, open, step);
    var s' := Apply(c, s, open, step);
    forall side: Side, p: nat | p < c.w ensures s'.StageAt(c, side, 0, p) == Goal(c) {
      assert s.StageAt(c, side, 0, p) == Goal(c);
    }
  }

  lemma OneBatchKept(c: Config, s: Pair, open: bool, step: Step)
    requires c.Valid() && s.Shape(c) && OneBatch(s.rcv[0]) && Enabled(c, s, open, step) && Rushing(step)
    ensures Apply(c, s, open, step).Shape(c) && OneBatch(Apply(c, s, open, step).rcv[0])
  {
    ApplyShape(c, s, open, step);
  }

  lemma StepKeepsRush(c: Config, s: Pair, open: bool, step: Step)
    requires c.Valid() && Rush(c, s) && Enabled(c, s, open, step) && Rushing(step)
    ensures Rush(c, Apply(c, s, open, step))
  {
    StepPreservesInv(c, s, open, step);
    LoopKept(c, s, open, step);
    OneBatchKept(c, s, open, step);
    CarriesAllKept(c, s, open, step, Sender);
    CarriesAllKept(c, s, open, step, Receiver);
  }

  // ---- Where the rush ends ----

  ghost predicate RushOver(c: Config, s: Pair)
    requires s.Shape(c)
  {
    forall step: Step | Rushing(step) :: !Enabled(c, s, true, step)
  }

  lemma LastPhaseOf(c: Config, s: Pair, side: Side)
    requires c.Valid() && s.Shape(c) && InLastLoop(c, s) && c.sizes > 0
    ensures Phase(c, s, side) == LastPhase(c) && PointAt(c, Goal(c)).Loop?
    ensures c.Iters(LastPhase(c)) == c.total && c.Prefill(LastPhase(c)) == c.prefill
  {
    assert s.StageAt(c, side, 0, 0) == Goal(c);
  }

  /** A sender that cannot go on has finished or waits; a receiver has finished or nothing to take. */
  predicate Done(c: Config, w: Worker) { w.iter == c.total && !w.mid }

  predicate Idle(c: Config, side: Side, w: Worker, count: nat) {
    w.iter < c.total && w.mid == side.Sender? && count == 0
  }

  lemma WorkerStops(c: Config, s: Pair, side: Side, p: nat)
    requires c.Valid() && s.Shape(c) && WorkersOk(c, s) && InLastLoop(c, s) && c.sizes > 0 && RushOver(c, s) && p < c.w
    ensures var w := s.WorkerAt(c, side, 0, p); Done(c, w) || Idle(c, side, w, s.Of(side)[0].syncs[p])
  {
    LastPhaseOf(c, s, side);
    var w := s.WorkerAt(c, side, 0, p);
    assert s.StageAt(c, side, 0, p) == Goal(c);
    assert WorkerOk(c, w);
    assert Goal(c) / 4 == LastPhase(c);
    assert Rushing(Send(side, 0, p)) && Rushing(Take(side, 0, p));
    assert !Enabled(c, s, true, Send(side, 0, p)) && !Enabled(c, s, true, Take(side, 0, p));
  }

  /** The sending side has delivered everything. */
  lemma SenderStops(c: Config, s: Pair)
    requires c.Valid() && Inv(c, s) && RushOver(c, s)
    ensures InFlight(s.snd[0]) == 0 && s.snd[0].held.None?
  {
    if Busy(s.snd[0], 0) {
      var step := BusyCanStep(c, s, true, Sender, 0, NoHold());
      assert Rushing(step);
    }
  }

  /** The receiving side has handed out its batch, if 16 messages arrived; nothing more arrives. */
  lemma ReceiverStops(c: Config, s: Pair)
    requires c.Valid() && Inv(c, s) && RushOver(c, s) && OneBatch(s.rcv[0])
    ensures var h := s.rcv[0];
            && h.polled == 0 && h.held.None? && h.picks == h.spent && h.spent in {0, POLL_BATCH}
            && (h.wire > 0 ==> h.posted == 0) && (h.spent == 0 ==> h.cq < POLL_BATCH)
  {
    var h := s.rcv[0];
    assert Rushing(Arrive(Receiver, 0)) && Rushing(Poll(Receiver, 0, POLL_BATCH));
    assert Rushing(Pick(Receiver, 0)) && Rushing(Bump(Receiver, 0));
    assert !Enabled(c, s, true, Arrive(Receiver, 0)) && !Enabled(c, s, true, Poll(Receiver, 0, POLL_BATCH));
    assert !Enabled(c, s, true, Pick(Receiver, 0)) && !Enabled(c, s, true, Bump(Receiver, 0));
    if h.held.Some? {
      HeldCanBump(c, s, Receiver, 0);
    }
  }

  /** A sender has finished: more than 2048 messages were sent to a side that posted no receive. */
  lemma FinishedStarves(c: Config, s: Pair, y: Excess, p: nat)
    requires c.Valid() && Inv(c, s) && RushOver(c, s) && c.sizes > 0 && InLastLoop(c, s) && OneBatch(s.rcv[0])
    requires c.total > PREPOSTED && FullCarry(c, s, Receiver, y) && p < c.w && Done(c, s.WorkerAt(c, Sender, 0, p))
    ensures s.rcv[0].wire > 0
  {
    LastPhaseOf(c, s, Receiver);
    ReceiverStops(c, s);
    assert SupplyOk(s.rcv[0]);
    var sent := SentAll(c, Sender, s.snd[0].workers, LastPhase(c));
    assert s.StageAt(c, Sender, 0, p) == Goal(c);
    ElementWithinSum(sent, p);
  }

  /** Every receiver has replied to its prefilled work. */
  lemma PrefillReplied(c: Config, s: Pair, y: Excess)
    requires c.Valid() && Inv(c, s) && RushOver(c, s) && c.sizes > 0 && InLastLoop(c, s) && OneBatch(s.rcv[0])
    requires FullCarry(c, s, Receiver, y)
    ensures c.w * Min(c.prefill, c.total) <= Sum(SentAll(c, Receiver, s.rcv[0].workers, LastPhase(c)))
  {
    LastPhaseOf(c, s, Receiver);
    ReceiverStops(c, s);
    var h := s.rcv[0];
    forall p | 0 <= p < c.w ensures Sent(c, Receiver, h.workers[p], LastPhase(c)) >= Min(c.prefill, c.total) {
      WorkerStops(c, s, Receiver, p);
      assert s.StageAt(c, Receiver, 0, p) == Goal(c);
      assert CounterOk(c, h, Receiver, 0, p, LastPhase(c), y);
    }
    SumAtLeast(SentAll(c, Receiver, h.workers, LastPhase(c)), Min(c.prefill, c.total));
  }

  /** A sender that waits has used its own prefilled work and that of the receivers. */
  lemma WaitingUsedPrefill(c: Config, s: Pair, x: Excess, y: Excess, p: nat)
    requires c.Valid() && Inv(c, s) && RushOver(c, s) && c.sizes > 0 && InLastLoop(c, s) && OneBatch(s.rcv[0])
    requires FullCarry(c, s, Sender, x) && FullCarry(c, s, Receiver, y)
    requires p < c.w && Idle(c, Sender, s.WorkerAt(c, Sender, 0, p), s.snd[0].syncs[p])
    ensures 2 * c.prefill < c.total
  {
    LastPhaseOf(c, s, Sender);
    SenderStops(c, s);
    PrefillReplied(c, s, y);
    var h := s.snd[0];
    ShareFromAtLeast(x.start, h.picks, c.w, p, Min(c.prefill, c.total));
    assert s.StageAt(c, Sender, 0, p) == Goal(c);
    assert CounterOk(c, h, Sender, 0, p, LastPhase(c), x);
  }

  lemma {:induction false} ShareFromWithin(start: nat, m: nat, w: nat, p: nat)
    requires p < w
    ensures ShareFrom(start, m, w, p) <= m
  {
    if m > 0 {
      ShareFromWithin(start, m - 1, w, p);
    }
  }

  /** No receiver finishes on its prefilled work and 16 messages. */
  lemma ReceiversIdle(c: Config, s: Pair, y: Excess, p: nat)
    requires c.Valid() && Inv(c, s) && RushOver(c, s) && c.sizes > 0 && InLastLoop(c, s) && OneBatch(s.rcv[0])
    requires FullCarry(c, s, Receiver, y) && 2 * c.prefill < c.total && c.total > PREPOSTED && p < c.w
    ensures Idle(c, Receiver, s.WorkerAt(c, Receiver, 0, p), s.rcv[0].syncs[p])
  {
    LastPhaseOf(c, s, Receiver);
    ReceiverStops(c, s);
    WorkerStops(c, s, Receiver, p);
    ShareFromWithin(y.start, s.rcv[0].picks, c.w, p);
    ElementWithinSum(y.counts, p);
    assert s.StageAt(c, Receiver, 0, p) == Goal(c);
    assert CounterOk(c, s.rcv[0], Receiver, 0, p, LastPhase(c), y);
  }

  /** Nothing is owed to a side in the last loop. */
  lemma LastCarry(c: Config, s: Pair, side: Side, x: Excess)
    requires c.Valid() && s.Shape(c) && InLastLoop(c, s) && c.sizes > 0 && FullCarry(c, s, side, x)
    ensures Total(x) >= Limit(c, LastPhase(c))
  {
    LastPhaseOf(c, s, side);
    var ws := s.Of(side.Peer())[0].workers;
    forall p | 0 <= p < c.w ensures Sent(c, side.Peer(), ws[p], LastPhase(c) - 1) == c.Iters(LastPhase(c) - 1) {
      assert s.StageAt(c, side.Peer(), 0, p) == Goal(c);
    }
    PaidOff(c, side.Peer(), ws, LastPhase(c));
  }

  /** Nobody on this side has anything in its counter. */
  predicate SideIdle(c: Config, s: Pair, side: Side)
    requires c.Valid() && s.Shape(c)
  {
    forall p: nat | p < c.w :: Idle(c, side, s.WorkerAt(c, side, 0, p), s.Of(side)[0].syncs[p])
  }

  lemma IdleCounters(c: Config, s: Pair, side: Side)
    requires c.Valid() && s.Shape(c) && SideIdle(c, s, side)
    ensures Sum(s.Of(side)[0].syncs) == 0
  {
    var syncs := s.Of(side)[0].syncs;
    forall p | 0 <= p < |syncs| ensures syncs[p] == 0 {
      assert Idle(c, side, s.WorkerAt(c, side, 0, p), syncs[p]);
    }
    SumAtMost(syncs, 0);
  }

  lemma IdleMids(c: Config, s: Pair, side: Side)
    requires c.Valid() && s.Shape(c) && InLastLoop(c, s) && SideIdle(c, s, side)
    ensures Sum(MidAll(c, s.Of(side)[0].workers, LastPhase(c))) == if side.Sender? then c.w else 0
  {
    var ws := s.Of(side)[0].workers;
    forall p | 0 <= p < |ws| ensures ws[p].stage == Goal(c) && ws[p].mid == side.Sender? {
      assert Idle(c, side, s.WorkerAt(c, side, 0, p), s.Of(side)[0].syncs[p]);
      assert s.StageAt(c, side, 0, p) == Goal(c);
    }
    if side.Sender? {
      AllMid(c, ws);
    } else {
      NoneMid(c, ws);
    }
  }

  /** All tokens of a group whose senders all wait and whose receivers have nothing to take are under
      way to the receivers. */
  lemma AllUnderWay(c: Config, s: Pair, x: Excess, y: Excess)
    requires c.Valid() && s.Shape(c) && c.sizes > 0 && InLastLoop(c, s)
    requires HalfAtOk(c, s, Sender, 0, x) && HalfAtOk(c, s, Receiver, 0, y)
    requires InFlight(s.snd[0]) == 0 && s.snd[0].held.None? && s.rcv[0].held.None?
    requires SideIdle(c, s, Sender) && SideIdle(c, s, Receiver)
    ensures InFlight(s.rcv[0]) == 2 * (c.w * c.prefill) + Total(x) + Total(y) + c.w
  {
    LastPhaseOf(c, s, Sender);
    LastPhaseOf(c, s, Receiver);
    GroupTokens(c, s, 0, x, y);
    IdleCounters(c, s, Sender);
    IdleCounters(c, s, Receiver);
    IdleMids(c, s, Sender);
    IdleMids(c, s, Receiver);
  }

  lemma AllMid(c: Config, ws: seq<Worker>)
    requires forall p | 0 <= p < |ws| :: ws[p].stage == Goal(c) && ws[p].mid
    ensures Sum(MidAll(c, ws, LastPhase(c))) == |ws|
  {
    SumAtLeast(MidAll(c, ws, LastPhase(c)), 1);
    SumAtMost(MidAll(c, ws, LastPhase(c)), 1);
  }

  lemma NoneMid(c: Config, ws: seq<Worker>)
    requires forall p | 0 <= p < |ws| :: !ws[p].mid
    ensures Sum(MidAll(c, ws, LastPhase(c))) == 0
  {
    SumAtMost(MidAll(c, ws, LastPhase(c)), 0);
  }

  /** The limit of all phases, at the last one. */
  lemma LimitAtLast(c: Config)
    requires c.sizes > 0 && c.prefill <= c.total
    ensures Limit(c, LastPhase(c)) + c.w * c.prefill == c.sizes * (c.w * c.prefill)
  {
    LimitOfSizes(c, c.sizes);
    LimitStep(c, LastPhase(c));
  }

  /** The rush ends with a message on the wire and no receive posted. */
  lemma RushStarves(c: Config, s: Pair)
    requires c.Valid() && Rush(c, s) && RushOver(c, s) && c.total > PREPOSTED
    requires 2 * (c.sizes * (c.w * c.prefill)) + c.w + POLL_BATCH > PREPOSTED
    ensures s.rcv[0].wire > 0 && s.rcv[0].posted == 0
  {
    var x: Excess :| FullCarry(c, s, Sender, x);
    var y: Excess :| FullCarry(c, s, Receiver, y);
    ReceiverStops(c, s);
    if p: nat :| p < c.w && Done(c, s.WorkerAt(c, Sender, 0, p)) {
      FinishedStarves(c, s, y, p);
    } else {
      forall p: nat | p < c.w ensures Idle(c, Sender, s.WorkerAt(c, Sender, 0, p), s.snd[0].syncs[p]) {
        WorkerStops(c, s, Sender, p);
      }
      WaitingStarve(c, s, x, y);
    }
  }

  lemma WaitingStarve(c: Config, s: Pair, x: Excess, y: Excess)
    requires c.Valid() && Rush(c, s) && RushOver(c, s) && c.total > PREPOSTED
    requires 2 * (c.sizes * (c.w * c.prefill)) + c.w + POLL_BATCH > PREPOSTED
    requires FullCarry(c, s, Sender, x) && FullCarry(c, s, Receiver, y)
    requires SideIdle(c, s, Sender)
    ensures s.rcv[0].wire > 0
  {
    SenderStops(c, s);
    ReceiverStops(c, s);
    assert Idle(c, Sender, s.WorkerAt(c, Sender, 0, 0), s.snd[0].syncs[0]);
    WaitingUsedPrefill(c, s, x, y, 0);
    forall p: nat | p < c.w ensures Idle(c, Receiver, s.WorkerAt(c, Receiver, 0, p), s.rcv[0].syncs[p]) {
      ReceiversIdle(c, s, y, p);
    }
    AllUnderWay(c, s, x, y);
    LastCarry(c, s, Sender, x);
    LastCarry(c, s, Receiver, y);
    LimitAtLast(c);
    assert SupplyOk(s.rcv[0]);
  }

  // ---- The run ----

  /** At the start of the last loop the receiving progress thread has at most a repost pending. */
  lemma LazyIsReady(c: Config, s: Pair)
    requires c.Valid() && s.Shape(c) && Fresh(c, s) && WithinQuota(c, s, Receiver) && s.Reached(c, Goal(c)) && c.sizes > 0
    ensures InLastLoop(c, s) && s.rcv[0].cq == 0 && s.rcv[0].polled == 0 && s.rcv[0].held.None? && s.rcv[0].picks == 0
  {
    forall side: Side, p: nat | p < c.w ensures s.StageAt(c, side, 0, p) == Goal(c) {
      assert s.WorkerAt(c, side, 0, p).stage <= Goal(c);
      assert s.SideReached(c, side, Goal(c));
    }
    LastPhaseOf(c, s, Receiver);
  }

  /** Make the pending repost, if there is one. */
  lemma StartRush(c: Config, job: seq<Pair>) returns (next: seq<Pair>)
    requires c.Valid() && JobLazy(c, job) && JobReached(c, job, Goal(c)) && c.sizes > 0
    ensures |next| > 0 && Rush(c, next[0]) && (next == job || JobNext(c, job, next))
  {
    LazyIsReady(c, job[0]);
    if job[0].rcv[0].spent == 0 {
      next := job;
    } else {
      var step := Repost(Receiver, 0);
      assert JobEnabled(c, job, 0, step);
      next := JobApply(c, job, 0, step);
      RepostIsReady(c, job[0], RestReached(c, job, 0, StepStage(c, job[0], step)));
    }
  }

  lemma RepostIsReady(c: Config, s: Pair, open: bool)
    requires c.Valid() && Lazy(c, s) && InLastLoop(c, s) && Enabled(c, s, open, Repost(Receiver, 0)) && c.sizes > 0
    requires s.rcv[0].picks == 0
    ensures Rush(c, Apply(c, s, open, Repost(Receiver, 0)))
  {
    var step := Repost(Receiver, 0);
    StepPreservesInv(c, s, open, step);
    ApplyWorkers(c, s, open, step);
    var s' := Apply(c, s, open, step);
    forall side: Side, p: nat | p < c.w ensures s'.StageAt(c, side, 0, p) == Goal(c) {
      assert s.StageAt(c, side, 0, p) == Goal(c);
    }
    CarriesAllKept(c, s, open, step, Sender);
    CarriesAllKept(c, s, open, step, Receiver);
  }

  /** Go on as long as there is a step of the rush. */
  lemma {:induction false} RushRun(c: Config, n: nat, run: seq<seq<Pair>>, last: seq<Pair>)
    returns (longer: seq<seq<Pair>>)
    requires c.Valid() && IsRun(c, n, run) && last == run[|run| - 1] && |last| > 0 && Rush(c, last[0])
    ensures IsRun(c, n, longer)
    ensures var end := longer[|longer| - 1]; |end| > 0 && Rush(c, end[0]) && RushOver(c, end[0])
    decreases JobMeasure(c, last)
  {
    if step: Step :| Rushing(step) && Enabled(c, last[0], true, step) {
      var next := RushStep(c, n, run, last, step);
      longer := RushRun(c, n, run + [next], next);
    } else {
      longer := run;
    }
  }

  lemma RushStep(c: Config, n: nat, run: seq<seq<Pair>>, last: seq<Pair>, step: Step) returns (next: seq<Pair>)
    requires c.Valid() && IsRun(c, n, run) && last == run[|run| - 1] && |last| > 0 && Rush(c, last[0])
    requires Rushing(step) && Enabled(c, last[0], true, step)
    ensures IsRun(c, n, run + [next]) && JobMeasure(c, next) < JobMeasure(c, last) && |next| > 0 && Rush(c, next[0])
  {
    RunInv(c, n, run, |run| - 1);
    var open := RestReached(c, last, 0, StepStage(c, last[0], step));
    OpenIrrelevant(c, last[0], open, step);
    StepKeepsRush(c, last[0], open, step);
    JobStepDecreases(c, last, 0, step);
    next := JobApply(c, last, 0, step);
    ExtendRun(c, n, run, next);
  }

  /** If the bound is exceeded there is a run in which a message finds no posted receive. */
  lemma StarvedRunExists(c: Config, n: nat) returns (run: seq<seq<Pair>>)
    requires c.Valid() && n > 0 && c.sizes > 0 && c.total > PREPOSTED
    requires 2 * (c.sizes * (c.w * c.prefill)) + c.w + POLL_BATCH > PREPOSTED
    ensures IsRun(c, n, run)
    ensures var s := run[|run| - 1];
            |s| > 0 && s[0].Shape(c) && s[0].rcv[0].wire > 0 && s[0].rcv[0].posted == 0
  {
    InitLazy(c, n);
    run := LazyRun(c, n, [InitJob(c, n)], InitJob(c, n));
    var next := StartRush(c, run[|run| - 1]);
    if next != run[|run| - 1] {
      ExtendRun(c, n, run, next);
      run := run + [next];
    }
    run := RushRun(c, n, run, next);
    RushStarves(c, run[|run| - 1][0]);
  }

  // ---- Exactly when the posted receives suffice ----

  /** In every state of every run every message on the wire finds a posted receive. */
  ghost predicate AlwaysPosted(c: Config, n: nat)
    requires c.Valid()
  {
    forall run: seq<seq<Pair>>, k: nat, i: nat, side: Side, g: nat |
      IsRun(c, n, run) && k < |run| && i < |run[k]| && run[k][i].Shape(c) && g < c.rx ::
        run[k][i].Of(side)[g].wire > 0 ==> run[k][i].Of(side)[g].posted > 0
  }

  /** Without message sizes nothing is ever sent. */
  lemma NothingSent(c: Config, s: Pair, side: Side, g: nat)
    requires c.Valid() && Inv(c, s) && c.sizes == 0 && g < c.rx
    ensures s.Of(side)[g].wire == 0
  {
    var peer := s.Of(side.Peer())[g].workers;
    forall p | 0 <= p < c.w ensures Sent(c, side.Peer(), peer[p], 0) == 0 {
      assert WorkerOk(c, s.WorkerAt(c, side.Peer(), g, p));
    }
    SumAtMost(SentAll(c, side.Peer(), peer, 0), 0);
    assert HalfAtOk(c, s, side, g, NoExcess(c));
  }

  /** With more than 2048 measured iterations: the posted receives always suffice if and only if
      w(2P * sizes + 1) + 16 is at most 2048, or there is nothing to do. */
  lemma ReceiveSupplyExact(c: Config, n: nat)
    requires c.Valid() && n > 0 && c.total > PREPOSTED
    ensures AlwaysPosted(c, n) <==>
            c.sizes == 0 || 2 * (c.sizes * (c.w * c.prefill)) + c.w + POLL_BATCH <= PREPOSTED
  {
    if c.sizes == 0 || 2 * (c.sizes * (c.w * c.prefill)) + c.w + POLL_BATCH <= PREPOSTED {
      forall run: seq<seq<Pair>>, k: nat, i: nat, side: Side, g: nat |
        IsRun(c, n, run) && k < |run| && i < |run[k]| && run[k][i].Shape(c) && g < c.rx
        ensures run[k][i].Of(side)[g].wire > 0 ==> run[k][i].Of(side)[g].posted > 0
      {
        if c.sizes == 0 {
          RunInv(c, n, run, k);
          NothingSent(c, run[k][i], side, g);
        } else {
          RunReceiveSupply(c, n, run, k, i, side, g);
        }
      }
    } else {
      var run := StarvedRunExists(c, n);
      var k := |run| - 1;
      var s: Pair := run[k][0];
      assert s.Of(Receiver)[0].wire > 0 && s.Of(Receiver)[0].posted == 0;
    }
  }
}

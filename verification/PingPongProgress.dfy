/** Deadlock freedom and termination of the ping-pong protocol, for any amount of prefilled work, any
    number of message sizes, and even if messages on the wires of one group are held back. */
module PingPongProgress {
  import opened Sums
  import opened RoundRobin
  import opened PingPong
  import opened PingPongSafety

  // ---- Somebody can always move ----

  /** A progress thread that has something to do, beyond `hold` messages left on the wire. */
  predicate Busy(h: Half, hold: nat) {
    h.wire > hold || h.cq > 0 || h.polled > 0 || h.held.Some? || h.spent > 0
  }

  /** How many messages towards the two halves of group 0 are held back. */
  datatype Hold = Hold(snd: nat, rcv: nat)

  function NoHold(): Hold { Hold(0, 0) }

  function HoldAt(side: Side, g: nat, hold: Hold): nat {
    if g != 0 then 0 else if side.Sender? then hold.snd else hold.rcv
  }

  /** How many of n messages the prefilled work of phase q does not make up for. */
  function Uncovered(c: Config, q: nat, n: nat): nat {
    if n <= c.w * c.Prefill(q) then 0 else n - c.w * c.Prefill(q)
  }

  /** Holding back n messages does no harm if prefilled work and messages carried over make up for them. */
  ghost predicate MayHoldAt(c: Config, s: Pair, side: Side, n: nat)
    requires c.Valid() && s.Shape(c)
  {
    Carried(c, s, side, 0, Uncovered(c, Phase(c, s, side), n))
  }

  ghost predicate MayHold(c: Config, s: Pair, hold: Hold)
    requires c.Valid() && s.Shape(c)
  {
    MayHoldAt(c, s, Sender, hold.snd) && MayHoldAt(c, s, Receiver, hold.rcv)
  }

  /** Nothing at all, or one message with prefilled work, may always be held back. */
  lemma MayHoldOne(c: Config, s: Pair, side: Side, n: nat)
    requires c.Valid() && s.Shape(c) && Carried(c, s, side, 0, 0)
    requires n == 0 || (n == 1 && c.Prefill(Phase(c, s, side)) >= 1)
    ensures MayHoldAt(c, s, side, n)
  {
    if n == 1 {
      MulMonotone(1, c.w, c.Prefill(Phase(c, s, side)));
    }
  }

  /** The step does not deliver a message that is held back. */
  predicate Patient(s: Pair, hold: Hold, step: Step)
    requires |s.snd| > 0 && |s.rcv| > 0
  {
    step.Arrive? && step.g == 0 ==> s.Of(step.side)[0].wire > HoldAt(step.side, 0, hold)
  }

  lemma NothingHeldBack(c: Config, s: Pair)
    requires c.Valid() && s.Shape(c) && AllCarried(c, s)
    ensures MayHold(c, s, NoHold())
  {
    MayHoldOne(c, s, Sender, 0);
    MayHoldOne(c, s, Receiver, 0);
  }

  lemma HeldCanBump(c: Config, s: Pair, side: Side, g: nat)
    requires c.Valid() && Inv(c, s) && g < c.rx && s.Of(side)[g].held.Some?
    ensures s.Of(side)[g].held.value / c.rx < c.w
  {
    assert Carried(c, s, side, g, 0);
    var x: Excess :| HalfAtOk(c, s, side, g, x);
    BumpOk(c, s.Of(side)[g], s.Of(side.Peer())[g].workers, side, g, Phase(c, s, side), x);
  }

  /** A progress thread with anything to do can do it. When no receive is posted, all of them
      are in the completion queue or in the current batch, so the thread is not idle either. */
  lemma BusyCanStep(c: Config, s: Pair, open: bool, side: Side, g: nat, hold: Hold) returns (step: Step)
    requires c.Valid() && Inv(c, s) && g < c.rx && Busy(s.Of(side)[g], HoldAt(side, g, hold))
    ensures Enabled(c, s, open, step) && !IsWorkerStep(step) && Patient(s, hold, step)
    ensures step.side == side && step.g == g
  {
    var h := s.Of(side)[g];
    assert SupplyOk(h);
    if h.held.Some? {
      HeldCanBump(c, s, side, g);
      step := Bump(side, g);
    } else if h.polled > 0 {
      step := Pick(side, g);
    } else if h.spent > 0 {
      step := Repost(side, g);
    } else if h.cq > 0 {
      step := Poll(side, g, 1);
    } else {
      step := Arrive(side, g);
    }
  }

  /** The arithmetic of the ping-pong. In a group where nobody can move, each side has sent at least
      the full rounds it has seen (and senders one more), up to k each. Then both sides have completed
      all k rounds. */
  lemma RoundsForceCompletion(w: nat, k: nat, toSenders: nat, toReceivers: nat, ms: nat, mr: nat)
    requires 0 < w
    requires mr == Min(k, FullRounds(toReceivers, w)) && w * mr <= toSenders
    requires ms == Min(k, 1 + FullRounds(toSenders, w)) && w * ms <= toReceivers
    ensures mr == k && ms == k
  {
    WholeRounds(w, mr, toSenders);
    WholeRounds(w, ms, toReceivers);
  }

  function FullRounds(n: nat, w: nat): (r: nat)
    requires 0 < w
    ensures w * r <= n < w * (r + 1)
  {
    assert n == (n / w) * w + n % w;
    n / w
  }

  function Min(a: nat, b: nat): nat { if a <= b then a else b }

  lemma WholeRounds(w: nat, m: nat, n: nat)
    requires 0 < w && w * m <= n
    ensures m <= FullRounds(n, w)
  {
    if FullRounds(n, w) < m {
      MulMonotone(FullRounds(n, w) + 1, m, w);
    }
  }

  /** A worker inside its loop that has no enabled step: it waits on a zero counter. */
  predicate Waiting(c: Config, side: Side, h: Half, p: nat, q: nat)
    requires HalfShape(c, h) && p < c.w
  {
    && h.workers[p].stage == c.LoopStage(q)
    && h.workers[p].iter < c.Iters(q)
    && h.workers[p].mid == side.Sender?
    && h.syncs[p] == 0
  }

  /** Every worker of the half is past the loop of phase q or waits in it. */
  predicate Stuck(c: Config, side: Side, h: Half, q: nat, hold: nat)
    requires HalfShape(c, h)
  {
    !Busy(h, hold) && forall p: nat | p < c.w :: h.workers[p].stage > c.LoopStage(q) || Waiting(c, side, h, p, q)
  }

  /** What is held back is covered by what was carried over and by prefilled work. */
  predicate Covered(c: Config, h: Half, q: nat, x: Excess) {
    h.wire <= x.wire + c.w * c.Prefill(q)
  }

  /** What reaches every worker of a half that is not busy, if w * k messages were sent to it: k units,
      counting the prefilled work, which makes up for messages held back. */
  lemma EverybodyGets(c: Config, h: Half, peer: seq<Worker>, side: Side, g: nat, q: nat, x: Excess, p: nat, k: nat)
    requires c.Valid() && HalfShape(c, h) && |x.counts| == c.w && HalfOk(c, h, peer, side, g, q, x)
    requires h.cq == 0 && h.polled == 0 && Covered(c, h, q, x) && p < c.w
    requires c.w * k <= Sum(SentAll(c, side.Peer(), peer, q))
    ensures k <= c.Prefill(q) + ShareFrom(x.start, h.picks, c.w, p)
  {
    if k > c.Prefill(q) {
      assert c.w * k == c.w * (k - c.Prefill(q)) + c.w * c.Prefill(q);
      ShareFromAtLeast(x.start, h.picks, c.w, p, k - c.Prefill(q));
    }
  }

  /** A worker of a stuck side has sent what its rounds allow, up to all k. */
  lemma StuckWorkerSent(c: Config, side: Side, h: Half, peer: seq<Worker>, g: nat, q: nat, x: Excess, hold: nat, p: nat, f: nat)
    requires c.Valid() && HalfShape(c, h) && |x.counts| == c.w && HalfOk(c, h, peer, side, g, q, x)
    requires Stuck(c, side, h, q, hold) && p < c.w && f <= c.Prefill(q) + ShareFrom(x.start, h.picks, c.w, p)
    ensures Min(c.Iters(q), (if side.Sender? then 1 else 0) + f) <= Sent(c, side, h.workers[p], q)
  {
    assert CounterOk(c, h, side, g, p, q, x);
  }

  /** What a stuck side has sent is bounded below by the f full rounds sent to it. */
  lemma StuckHasSent(c: Config, side: Side, h: Half, peer: seq<Worker>, g: nat, q: nat, x: Excess, hold: nat, f: nat, m: nat)
    requires c.Valid() && HalfShape(c, h) && |x.counts| == c.w && HalfOk(c, h, peer, side, g, q, x)
    requires Stuck(c, side, h, q, hold) && Covered(c, h, q, x)
    requires c.w * f <= Sum(SentAll(c, side.Peer(), peer, q))
    requires m == Min(c.Iters(q), (if side.Sender? then 1 else 0) + f)
    ensures c.w * m <= Sum(SentAll(c, side, h.workers, q))
  {
    var sent := SentAll(c, side, h.workers, q);
    forall p | 0 <= p < |sent| ensures m <= sent[p] {
      EverybodyGets(c, h, peer, side, g, q, x, p, f);
      StuckWorkerSent(c, side, h, peer, g, q, x, hold, p, f);
    }
    SumAtLeast(sent, m);
  }

  /** A worker to whose half all k rounds were sent does not wait. */
  lemma NobodyWaits(c: Config, side: Side, h: Half, peer: seq<Worker>, g: nat, q: nat, x: Excess, hold: nat, p: nat)
    requires c.Valid() && HalfShape(c, h) && |x.counts| == c.w && HalfOk(c, h, peer, side, g, q, x)
    requires !Busy(h, hold) && Covered(c, h, q, x) && p < c.w
    requires c.w * c.Iters(q) <= Sum(SentAll(c, side.Peer(), peer, q))
    ensures !Waiting(c, side, h, p, q)
  {
    EverybodyGets(c, h, peer, side, g, q, x, p, c.Iters(q));
    assert CounterOk(c, h, side, g, p, q, x);
  }

  /** Both halves of a group in the same phase are stuck only after all k rounds of both. */
  lemma NoStandoff(c: Config, a: Half, b: Half, g: nat, q: nat, xa: Excess, xb: Excess, hold: Hold)
    requires c.Valid() && HalfShape(c, a) && HalfShape(c, b) && |xa.counts| == |xb.counts| == c.w
    requires HalfOk(c, a, b.workers, Sender, g, q, xa) && HalfOk(c, b, a.workers, Receiver, g, q, xb)
    requires Stuck(c, Sender, a, q, HoldAt(Sender, g, hold)) && Covered(c, a, q, xa)
    requires Stuck(c, Receiver, b, q, HoldAt(Receiver, g, hold)) && Covered(c, b, q, xb)
    ensures c.w * c.Iters(q) <= Sum(SentAll(c, Receiver, b.workers, q))
    ensures c.w * c.Iters(q) <= Sum(SentAll(c, Sender, a.workers, q))
  {
    var toS, toR := Sum(SentAll(c, Receiver, b.workers, q)), Sum(SentAll(c, Sender, a.workers, q));
    var ms, mr := Min(c.Iters(q), 1 + FullRounds(toS, c.w)), Min(c.Iters(q), FullRounds(toR, c.w));
    StuckHasSent(c, Sender, a, b.workers, g, q, xa, HoldAt(Sender, g, hold), FullRounds(toS, c.w), ms);
    StuckHasSent(c, Receiver, b, a.workers, g, q, xb, HoldAt(Receiver, g, hold), FullRounds(toR, c.w), mr);
    RoundsForceCompletion(c.w, c.Iters(q), toS, toR, ms, mr);
  }

  /** If the peer has finished the phase altogether, everything was sent to the waiting side. */
  lemma PeerFinished(c: Config, side: Side, peer: seq<Worker>, q: nat)
    requires |peer| == c.w && forall p: nat | p < c.w :: peer[p].stage > c.LoopStage(q)
    ensures c.w * c.Iters(q) <= Sum(SentAll(c, side.Peer(), peer, q))
  {
    SumAtLeast(SentAll(c, side.Peer(), peer, q), c.Iters(q));
  }

  lemma HoldBooksAt(c: Config, s: Pair, side: Side, g: nat, n: nat) returns (x: Excess)
    requires c.Valid() && s.Shape(c) && g < c.rx && Carried(c, s, side, g, Uncovered(c, Phase(c, s, side), n))
    ensures HalfAtOk(c, s, side, g, x) && n <= x.wire + c.w * c.Prefill(Phase(c, s, side))
  {
    x :| x.wire >= Uncovered(c, Phase(c, s, side), n) && HalfAtOk(c, s, side, g, x);
  }

  lemma NothingUncovered(c: Config, q: nat)
    ensures Uncovered(c, q, 0) == 0
  {
    MulMonotone(0, c.w, c.Prefill(q));
  }

  /** Books of a half that cover what is held back from it. */
  lemma HoldBooks(c: Config, s: Pair, side: Side, g: nat, hold: Hold) returns (x: Excess)
    requires c.Valid() && s.Shape(c) && AllCarried(c, s) && MayHold(c, s, hold) && g < c.rx
    ensures HalfAtOk(c, s, side, g, x)
    ensures !Busy(s.Of(side)[g], HoldAt(side, g, hold)) ==> Covered(c, s.Of(side)[g], Phase(c, s, side), x)
  {
    if g > 0 {
      NothingUncovered(c, Phase(c, s, side));
      assert Carried(c, s, side, g, 0);
    }
    x := HoldBooksAt(c, s, side, g, HoldAt(side, g, hold));
  }

  /** A worker in the loop of phase q is never in a group whose halves are both stuck in phase q. */
  lemma NeverBothStuck(c: Config, s: Pair, side: Side, g: nat, p: nat, hold: Hold)
    requires c.Valid() && Inv(c, s) && MayHold(c, s, hold) && g < c.rx && p < c.w
    requires InLoop(c, s.WorkerAt(c, side, g, p))
    ensures var q := s.StageAt(c, side, g, p) / 4;
            !(Stuck(c, side, s.Of(side)[g], q, HoldAt(side, g, hold))
              && Stuck(c, side.Peer(), s.Of(side.Peer())[g], q, HoldAt(side.Peer(), g, hold)))
  {
    var q := s.StageAt(c, side, g, p) / 4;
    var h, k := s.Of(side)[g], s.Of(side.Peer())[g];
    OwnPhase(c, s, side, g, p);
    PeerPhase(c, s, side, g, p);
    if Stuck(c, side, h, q, HoldAt(side, g, hold)) && Stuck(c, side.Peer(), k, q, HoldAt(side.Peer(), g, hold)) {
      var x := HoldBooks(c, s, side, g, hold);
      if Phase(c, s, side.Peer()) != q {
        PeerPast(c, s, side, g, p);
      } else {
        var y := HoldBooks(c, s, side.Peer(), g, hold);
        if side.Sender? {
          NoStandoff(c, h, k, g, q, x, y, hold);
        } else {
          NoStandoff(c, k, h, g, q, y, x, hold);
        }
      }
      NobodyWaits(c, side, h, k.workers, g, q, x, HoldAt(side, g, hold), p);
    }
  }

  lemma PeerPast(c: Config, s: Pair, side: Side, g: nat, p: nat)
    requires c.Valid() && s.Shape(c) && BarrierOk(c, s) && g < c.rx && p < c.w
    requires InLoop(c, s.WorkerAt(c, side, g, p)) && Phase(c, s, side.Peer()) != s.StageAt(c, side, g, p) / 4
    ensures var q := s.StageAt(c, side, g, p) / 4;
            c.w * c.Iters(q) <= Sum(SentAll(c, side.Peer(), s.Of(side.Peer())[g].workers, q))
  {
    var q, k := s.StageAt(c, side, g, p) / 4, s.Of(side.Peer())[g];
    PeerPhase(c, s, side, g, p);
    forall i: nat | i < c.w ensures k.workers[i].stage > c.LoopStage(q) {
      assert s.StageAt(c, side.Peer(), g, i) >= s.StageAt(c, side, g, p) + 1;
    }
    PeerFinished(c, side, k.workers, q);
  }

  /** A worker that stands at the lowest stage of the whole pair. */
  predicate Lowest(c: Config, s: Pair, side: Side, g: nat, p: nat)
    requires s.Shape(c)
  {
    g < c.rx && p < c.w && s.Reached(c, s.StageAt(c, side, g, p))
  }

  /** A worker in the loop of phase q that is not waiting can move. */
  lemma LoopWorkerMoves(c: Config, s: Pair, open: bool, side: Side, g: nat, p: nat) returns (step: Step)
    requires c.Valid() && s.Shape(c) && WorkersOk(c, s) && g < c.rx && p < c.w
    requires InLoop(c, s.WorkerAt(c, side, g, p))
    requires !Waiting(c, side, s.Of(side)[g], p, s.StageAt(c, side, g, p) / 4)
    ensures Enabled(c, s, open, step) && IsWorkerStep(step)
    ensures step.side == side && step.g == g && step.p == p
  {
    var w := s.WorkerAt(c, side, g, p);
    assert WorkerOk(c, w);
    if w.iter == c.Iters(w.stage / 4) {
      step := Leave(side, g, p);
    } else if w.mid == side.Receiver? {
      step := Send(side, g, p);
    } else {
      step := Take(side, g, p);
    }
  }

  /** Within group g: a non-waiting worker at the loop stage of phase q, on either side, if any. */
  lemma MoverOrStuck(c: Config, s: Pair, side: Side, g: nat, q: nat, hold: nat) returns (found: bool, p: nat)
    requires c.Valid() && s.Shape(c) && g < c.rx && s.Reached(c, c.LoopStage(q)) && !Busy(s.Of(side)[g], hold)
    ensures found ==> p < c.w && s.StageAt(c, side, g, p) == c.LoopStage(q) && !Waiting(c, side, s.Of(side)[g], p, q)
    ensures !found ==> Stuck(c, side, s.Of(side)[g], q, hold)
  {
    var h := s.Of(side)[g];
    if i: nat :| i < c.w && h.workers[i].stage <= c.LoopStage(q) && !Waiting(c, side, h, i, q) {
      found, p := true, i;
      assert s.StageAt(c, side, g, i) >= c.LoopStage(q);
    } else {
      found, p := false, 0;
    }
  }

  /** A reset can be made, with nothing to race with for one. */
  lemma ResetCanStep(c: Config, s: Pair, side: Side, g: nat, p: nat)
    requires c.Valid() && s.Shape(c) && g < c.rx && p < c.w && PointAt(c, s.StageAt(c, side, g, p)).ResetPoint?
    ensures Enabled(c, s, true, Reset(side, g, p, NoRaces(c)))
  {
    assert forall i: nat | i < c.rx :: RaceOk(c, s.Of(side)[i], NoRaces(c)[i]);
  }

  /** Deadlock freedom of one pair: a worker at the lowest stage, nothing blocked elsewhere. The step
      found is one of a progress thread or of a worker at the lowest stage, and it respects the hold. */
  lemma PairCanStep(c: Config, s: Pair, side: Side, g: nat, p: nat, hold: Hold) returns (step: Step)
    requires c.Valid() && Inv(c, s) && MayHold(c, s, hold)
    requires Lowest(c, s, side, g, p) && s.StageAt(c, side, g, p) <= 4 * c.Phases()
    ensures Enabled(c, s, true, step) && Patient(s, hold, step)
    ensures IsWorkerStep(step) ==> s.StageAt(c, step.side, step.g, step.p) == s.StageAt(c, side, g, p)
  {
    if Busy(s.Of(side)[g], HoldAt(side, g, hold)) {
      step := BusyCanStep(c, s, true, side, g, hold);
    } else if Busy(s.Of(side.Peer())[g], HoldAt(side.Peer(), g, hold)) {
      step := BusyCanStep(c, s, true, side.Peer(), g, hold);
    } else {
      var w := s.WorkerAt(c, side, g, p);
      assert WorkerOk(c, w);
      match PointAt(c, w.stage) {
        case ResetPoint =>
          ResetCanStep(c, s, side, g, p);
          step := Reset(side, g, p, NoRaces(c));
        case ProcBarrier => step := Cross(side, g, p);
        case ThreadBarrier => step := Cross(side, g, p);
        case Loop => step := IdleLoopCanStep(c, s, side, g, p, hold);
      }
    }
  }

  /** The case of the loop, with both progress threads of the group idle. */
  lemma IdleLoopCanStep(c: Config, s: Pair, side: Side, g: nat, p: nat, hold: Hold) returns (step: Step)
    requires c.Valid() && Inv(c, s) && MayHold(c, s, hold)
    requires Lowest(c, s, side, g, p) && InLoop(c, s.WorkerAt(c, side, g, p))
    requires !Busy(s.Of(side)[g], HoldAt(side, g, hold)) && !Busy(s.Of(side.Peer())[g], HoldAt(side.Peer(), g, hold))
    ensures Enabled(c, s, true, step) && IsWorkerStep(step)
    ensures s.StageAt(c, step.side, step.g, step.p) == s.StageAt(c, side, g, p)
  {
    var q := s.StageAt(c, side, g, p) / 4;
    var found, i := MoverOrStuck(c, s, side, g, q, HoldAt(side, g, hold));
    if found {
      step := LoopWorkerMoves(c, s, true, side, g, i);
    } else {
      found, i := MoverOrStuck(c, s, side.Peer(), g, q, HoldAt(side.Peer(), g, hold));
      NeverBothStuck(c, s, side, g, p, hold);
      step := LoopWorkerMoves(c, s, true, side.Peer(), g, i);
    }
  }

  /** Somebody stands lowest. */
  lemma LowestExists(c: Config, s: Pair, b: nat) returns (side: Side, g: nat, p: nat)
    requires c.Valid() && s.Shape(c) && !s.Reached(c, b)
    ensures Lowest(c, s, side, g, p) && s.StageAt(c, side, g, p) < b
    decreases b
  {
    if s.Reached(c, b - 1) {
      var sd: Side := if s.SideReached(c, Sender, b) then Receiver else Sender;
      var i: nat, j: nat :| i < c.rx && j < c.w && s.StageAt(c, sd, i, j) < b;
      side, g, p := sd, i, j;
    } else {
      side, g, p := LowestExists(c, s, b - 1);
    }
  }

  // ---- Every step uses up some of a finite amount of work ----

  function StageCost(c: Config, stage: nat): nat {
    if PointAt(c, stage).Loop? then 2 * c.Iters(stage / 4) + 1 else 1
  }

  function CostFrom(c: Config, stage: nat): nat
    decreases 4 * c.Phases() + 1 - stage
  {
    if stage > 4 * c.Phases() then 0 else StageCost(c, stage) + CostFrom(c, stage + 1)
  }

  /** Steps a worker still has to make. */
  function WorkLeft(c: Config, w: Worker): nat {
    var done := if InLoop(c, w) then 2 * w.iter + (if w.mid then 1 else 0) else 0;
    if done <= CostFrom(c, w.stage) then CostFrom(c, w.stage) - done else 0
  }

  function WorkLeftAll(c: Config, ws: seq<Worker>): (r: seq<nat>)
    ensures |r| == |ws|
  {
    seq(|ws|, i requires 0 <= i < |ws| => WorkLeft(c, ws[i]))
  }

  /** A worker step is worth 6, a message 5 on the wire and one less at every station. */
  function HalfMeasure(c: Config, h: Half): nat {
    6 * Sum(WorkLeftAll(c, h.workers)) + 5 * h.wire + 4 * h.cq + 3 * h.polled + 2 * HeldCount(h) + h.spent
  }

  function HalfMeasures(c: Config, hs: seq<Half>): (r: seq<nat>)
    ensures |r| == |hs|
  {
    seq(|hs|, i requires 0 <= i < |hs| => HalfMeasure(c, hs[i]))
  }

  function PairMeasure(c: Config, s: Pair): nat {
    Sum(HalfMeasures(c, s.snd)) + Sum(HalfMeasures(c, s.rcv))
  }

  lemma PutMeasure(c: Config, s: Pair, side: Side, g: nat, h: Half)
    requires g < |s.Of(side)|
    ensures PairMeasure(c, s.Put(side, g, h)) + HalfMeasure(c, s.Of(side)[g]) == PairMeasure(c, s) + HalfMeasure(c, h)
  {
    var hs := s.Of(side);
    assert HalfMeasures(c, hs[g := h]) == HalfMeasures(c, hs)[g := HalfMeasure(c, h)];
    SumUpdate(HalfMeasures(c, hs), g, HalfMeasure(c, h));
  }

  lemma ResetMeasure(c: Config, s: Pair, side: Side, count: nat, races: seq<Race>)
    requires s.Shape(c) && RacesOk(c, s, side, races)
    ensures PairMeasure(c, ResetSide(c, s, side, count, races)) == PairMeasure(c, s)
  {
    assert HalfMeasures(c, ResetSide(c, s, side, count, races).Of(side)) == HalfMeasures(c, s.Of(side));
  }

  lemma WorkerStepCost(c: Config, s: Pair, open: bool, step: Step, h: Half)
    requires c.Valid() && s.Shape(c) && WorkersOk(c, s) && Enabled(c, s, open, step) && IsWorkerStep(step)
    requires HalfShape(c, h) && h.workers == s.Of(step.side)[step.g].workers
    requires step.Take? ==> h.syncs[step.p] > 0
    ensures WorkLeft(c, LocalStep(c, h, step).workers[step.p]) + 1 == WorkLeft(c, h.workers[step.p])
  {
    assert WorkerOk(c, s.WorkerAt(c, step.side, step.g, step.p));
  }

  lemma WorkerMeasure(c: Config, s: Pair, open: bool, step: Step, h: Half)
    requires c.Valid() && s.Shape(c) && WorkersOk(c, s) && Enabled(c, s, open, step) && IsWorkerStep(step)
    requires HalfShape(c, h) && h.workers == s.Of(step.side)[step.g].workers
    requires step.Take? ==> h.syncs[step.p] > 0
    ensures HalfMeasure(c, LocalStep(c, h, step)) + 6 == HalfMeasure(c, h)
  {
    WorkerStepCost(c, s, open, step, h);
    var h' := LocalStep(c, h, step);
    var w' := h'.workers[step.p];
    assert WorkLeftAll(c, h'.workers) == WorkLeftAll(c, h.workers)[step.p := WorkLeft(c, w')];
    SumUpdate(WorkLeftAll(c, h.workers), step.p, WorkLeft(c, w'));
  }

  lemma ProgressMeasure(c: Config, s: Pair, open: bool, step: Step)
    requires c.Valid() && s.Shape(c) && Enabled(c, s, open, step) && !IsWorkerStep(step)
    ensures var h := s.Of(step.side)[step.g]; HalfMeasure(c, LocalStep(c, h, step)) < HalfMeasure(c, h)
  {
  }

  lemma WireMeasure(c: Config, h: Half)
    ensures HalfMeasure(c, h.(wire := h.wire + 1)) == HalfMeasure(c, h) + 5
  {
  }

  lemma SendApplied(c: Config, s: Pair, open: bool, step: Step)
    requires c.Valid() && s.Shape(c) && Enabled(c, s, open, step) && step.Send?
    ensures var h, peer := s.Of(step.side)[step.g], s.Of(step.side.Peer())[step.g];
            Apply(c, s, open, step)
            == s.Put(step.side, step.g, LocalStep(c, h, step)).Put(step.side.Peer(), step.g, peer.(wire := peer.wire + 1))
  {
  }

  lemma SendMeasures(c: Config, s: Pair, open: bool, step: Step)
    requires c.Valid() && s.Shape(c) && WorkersOk(c, s) && Enabled(c, s, open, step) && step.Send?
    ensures var h, peer := s.Of(step.side)[step.g], s.Of(step.side.Peer())[step.g];
            && HalfMeasure(c, LocalStep(c, h, step)) + 6 == HalfMeasure(c, h)
            && HalfMeasure(c, peer.(wire := peer.wire + 1)) == HalfMeasure(c, peer) + 5
  {
    WorkerMeasure(c, s, open, step, s.Of(step.side)[step.g]);
    WireMeasure(c, s.Of(step.side.Peer())[step.g]);
  }

  lemma SendDecreases(c: Config, s: Pair, open: bool, step: Step)
    requires c.Valid() && s.Shape(c) && WorkersOk(c, s) && Enabled(c, s, open, step) && step.Send?
    ensures PairMeasure(c, Apply(c, s, open, step)) < PairMeasure(c, s)
  {
    var h, peer := s.Of(step.side)[step.g], s.Of(step.side.Peer())[step.g];
    var h', peer' := LocalStep(c, h, step), peer.(wire := peer.wire + 1);
    SendMeasures(c, s, open, step);
    SendApplied(c, s, open, step);
    TwoPuts(c, s, step.side, step.g, h', peer', Apply(c, s, open, step));
  }

  lemma TwoPuts(c: Config, s: Pair, side: Side, g: nat, h: Half, peer: Half, s': Pair)
    requires g < |s.snd| == |s.rcv| && s' == s.Put(side, g, h).Put(side.Peer(), g, peer)
    requires HalfMeasure(c, h) + 6 == HalfMeasure(c, s.Of(side)[g])
    requires HalfMeasure(c, peer) == HalfMeasure(c, s.Of(side.Peer())[g]) + 5
    ensures PairMeasure(c, s') < PairMeasure(c, s)
  {
    PutMeasure(c, s, side, g, h);
    PutMeasure(c, s.Put(side, g, h), side.Peer(), g, peer);
    assert s.Put(side, g, h).Of(side.Peer()) == s.Of(side.Peer());
  }

  lemma LeadResetDecreases(c: Config, s: Pair, open: bool, step: Step)
    requires c.Valid() && s.Shape(c) && WorkersOk(c, s) && Enabled(c, s, open, step) && IsLeadReset(step)
    ensures PairMeasure(c, Apply(c, s, open, step)) < PairMeasure(c, s)
  {
    var side := step.side;
    var count := c.Prefill(s.Of(side)[0].workers[0].stage / 4);
    var base := ResetSide(c, s, side, count, step.races);
    ResetMeasure(c, s, side, count, step.races);
    WorkerMeasure(c, s, open, step, base.Of(side)[0]);
    PutMeasure(c, base, side, 0, LocalStep(c, base.Of(side)[0], step));
  }

  /** Every step strictly decreases the measure. */
  lemma StepDecreases(c: Config, s: Pair, open: bool, step: Step)
    requires c.Valid() && s.Shape(c) && WorkersOk(c, s) && Enabled(c, s, open, step)
    ensures PairMeasure(c, Apply(c, s, open, step)) < PairMeasure(c, s)
  {
    if step.Send? {
      SendDecreases(c, s, open, step);
    } else if IsLeadReset(step) {
      LeadResetDecreases(c, s, open, step);
    } else {
      if IsWorkerStep(step) {
        WorkerMeasure(c, s, open, step, s.Of(step.side)[step.g]);
      } else {
        ProgressMeasure(c, s, open, step);
      }
      PutMeasure(c, s, step.side, step.g, LocalStep(c, s.Of(step.side)[step.g], step));
    }
  }
}

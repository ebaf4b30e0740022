/** The ping-pong protocol with the two-level barrier in place of its gates. `PingPong` lets a worker
    cross a barrier when the others have reached it. Here nothing tells a worker where the others are:
    it goes through the moves of `Barrier` and returns when they do. Every run of this system is a run
    of `PingPong`, it never deadlocks, and it finishes. */
module PingPongBarrier {
  import Barrier
  import opened Sums
  import opened RoundRobin
  import opened PingPong
  import opened PingPongSafety
  import opened PingPongRuns

  // ---- The barrier calls of a worker, in program order ----

  function Calls(c: Config): (r: Barrier.Calls)
    ensures |r| == 4 * c.sizes + 1
  {
    seq(4 * c.sizes + 1, k => k == 4 * c.sizes || k % 4 != 3)
  }

  /** The stage at which a worker makes its k-th call. */
  function CallStage(c: Config, k: nat): nat {
    if k == 4 * c.sizes then 8 * c.sizes else 2 * k + 1
  }

  /** The call a worker at this stage makes, if it makes one. */
  function CallAt(c: Config, stage: nat): nat {
    if stage == 8 * c.sizes then 4 * c.sizes else stage / 2
  }

  lemma Eighths(n: nat)
    ensures var r := n % 8; n % 4 == r % 4 && (n / 4) % 2 == r / 4 && n % 2 == r % 2 && (n / 2) % 4 == r / 2
  {
    var a, r := n / 8, n % 8;
    DivModUnique(n, 4, 2 * a + r / 4, r % 4);
    DivModUnique(n, 2, 4 * a + r / 2, r % 2);
    DivModUnique(n / 4, 2, a, r / 4);
    DivModUnique(n / 2, 4, a, r / 2);
  }

  /** The program points that are barriers are exactly the calls, of the right kind. */
  lemma BarrierPoints(c: Config, stage: nat)
    ensures PointAt(c, stage).ProcBarrier? <==>
            CallAt(c, stage) < |Calls(c)| && CallStage(c, CallAt(c, stage)) == stage && Calls(c)[CallAt(c, stage)]
    ensures PointAt(c, stage).ThreadBarrier? <==>
            CallAt(c, stage) < |Calls(c)| && CallStage(c, CallAt(c, stage)) == stage && !Calls(c)[CallAt(c, stage)]
  {
    Eighths(stage);
  }

  lemma CallPoint(c: Config, k: nat)
    requires k < |Calls(c)|
    ensures if Calls(c)[k] then PointAt(c, CallStage(c, k)).ProcBarrier? else PointAt(c, CallStage(c, k)).ThreadBarrier?
  {
  }

  lemma CallStagesRise(c: Config, k: nat, n: nat)
    requires k < n < |Calls(c)|
    ensures CallStage(c, k) < CallStage(c, n)
  {
  }

  // ---- The system ----

  /** The pairs, and for every process where its threads are in their barrier calls. */
  datatype System = System(job: seq<Pair>, threads: Barrier.Job)

  /** The rank of a process: the sending processes come first. */
  function Rank(n: nat, i: nat, side: Side): nat {
    if side.Sender? then i else n + i
  }

  /** What a thread's place in its calls says of the stage of its worker. */
  predicate Follows(c: Config, stage: nat, t: Barrier.Thread) {
    && t.call <= |Calls(c)|
    && (t.call > 0 ==> stage > CallStage(c, t.call - 1))
    && (t.call < |Calls(c)| ==> stage <= CallStage(c, t.call))
    && (t.at > 0 ==> t.call < |Calls(c)| && stage == CallStage(c, t.call))
  }

  predicate Fits(c: Config, sys: System) {
    && JobShape(c, sys.job) && |sys.threads| == 2 * |sys.job|
    && (forall r | 0 <= r < |sys.threads| :: |sys.threads[r]| == c.Tx())
  }

  function ThreadOf(c: Config, sys: System, i: nat, side: Side, g: nat, p: nat): Barrier.Thread
    requires c.Valid() && Fits(c, sys) && i < |sys.job| && g < c.rx && p < c.w
  {
    WorkerInTeam(c, g, p);
    sys.threads[Rank(|sys.job|, i, side)][WorkerId(c.rx, g, p)]
  }

  /** Worker p of group g is thread WorkerId(rx, g, p) of the team of rx * w threads. */
  lemma WorkerInTeam(c: Config, g: nat, p: nat)
    requires g < c.rx && p < c.w
    ensures WorkerId(c.rx, g, p) < c.Tx()
  {
    MulMonotone(p + 1, c.w, c.rx);
  }

  lemma ThreadHasWorker(c: Config, t: nat)
    requires c.Valid() && t < c.Tx()
    ensures t % c.rx < c.rx && t / c.rx < c.w && WorkerId(c.rx, t % c.rx, t / c.rx) == t
  {
    if t / c.rx >= c.w {
      MulMonotone(c.w, t / c.rx, c.rx);
    }
  }

  /** Every thread is where its worker is, and the barrier keeps its own invariant. */
  ghost predicate Gated(c: Config, sys: System)
    requires c.Valid()
  {
    && Fits(c, sys) && Barrier.Inv(Calls(c), sys.threads)
    && forall i: nat, side: Side, g: nat, p: nat | i < |sys.job| && g < c.rx && p < c.w ::
         Follows(c, sys.job[i].StageAt(c, side, g, p), ThreadOf(c, sys, i, side, g, p))
  }

  datatype SysStep =
    | Own(i: nat, step: Step)                          // any step but the return from a barrier
    | Call(i: nat, side: Side, g: nat, p: nat)         // one move of a worker that stands at a barrier

  predicate SysEnabled(c: Config, sys: System, st: SysStep)
    requires c.Valid() && Fits(c, sys) && Barrier.Shape(Calls(c), sys.threads)
  {
    match st
    case Own(i, step) => !step.Cross? && JobEnabled(c, sys.job, i, step)
    case Call(i, side, g, p) =>
      && i < |sys.job| && g < c.rx && p < c.w
      && sys.job[i].StageAt(c, side, g, p) == CallStage(c, ThreadOf(c, sys, i, side, g, p).call)
      && Barrier.Enabled(Calls(c), sys.threads, Rank(|sys.job|, i, side), WorkerId(c.rx, g, p))
  }

  /** The worker returns from its barrier; nobody looks where the others are. */
  function Returned(c: Config, job: seq<Pair>, i: nat, side: Side, g: nat, p: nat): seq<Pair>
    requires JobShape(c, job) && i < |job| && g < c.rx && p < c.w
  {
    var h := job[i].Of(side)[g];
    job[i := job[i].Put(side, g, SetWorker(h, p, h.workers[p].Advance()))]
  }

  function SysApply(c: Config, sys: System, st: SysStep): System
    requires c.Valid() && Fits(c, sys) && Barrier.Shape(Calls(c), sys.threads) && SysEnabled(c, sys, st)
  {
    match st
    case Own(i, step) => sys.(job := JobApply(c, sys.job, i, step))
    case Call(i, side, g, p) =>
      WorkerInTeam(c, g, p);
      var r, t := Rank(|sys.job|, i, side), WorkerId(c.rx, g, p);
      var threads := Barrier.Step(Calls(c), sys.threads, r, t);
      if threads[r][t].call > sys.threads[r][t].call then System(Returned(c, sys.job, i, side, g, p), threads)
      else sys.(threads := threads)
  }

  function InitSystem(c: Config, n: nat): System {
    System(InitJob(c, n), Barrier.Init(seq(2 * n, _ => c.Tx())))
  }

  ghost predicate SysNext(c: Config, sys: System, sys': System)
    requires c.Valid()
  {
    && Fits(c, sys) && Barrier.Shape(Calls(c), sys.threads)
    && exists st :: SysEnabled(c, sys, st) && sys' == SysApply(c, sys, st)
  }

  ghost predicate IsSysRun(c: Config, n: nat, run: seq<System>)
    requires c.Valid()
  {
    && |run| > 0 && run[0] == InitSystem(c, n)
    && forall k | 0 <= k < |run| - 1 :: SysNext(c, run[k], run[k + 1])
  }

  // ---- The barrier is the gate ----

  /** Inside or past its n-th call a worker has reached the stage of that call. */
  lemma EnteredReached(c: Config, stage: nat, t: Barrier.Thread, n: nat)
    requires Follows(c, stage, t) && Barrier.Entered(t, n) && n < |Calls(c)|
    ensures stage >= CallStage(c, n)
  {
    if t.call - 1 > n {
      CallStagesRise(c, n, t.call - 1);
    }
  }

  lemma OneWorkerPerThread(c: Config, n: nat, i: nat, side: Side, g: nat, p: nat, i': nat, side': Side, g': nat, p': nat)
    requires i < n && i' < n && g < c.rx && g' < c.rx
    requires Rank(n, i, side) == Rank(n, i', side') && WorkerId(c.rx, g, p) == WorkerId(c.rx, g', p')
    ensures i == i' && side == side' && g == g' && p == p'
  {
    WorkerIdDecodes(c.rx, g, p);
    WorkerIdDecodes(c.rx, g', p');
  }

  /** The move takes the worker out of its barrier call. */
  predicate Returns(c: Config, sys: System, i: nat, side: Side, g: nat, p: nat)
    requires c.Valid() && Fits(c, sys) && Barrier.Shape(Calls(c), sys.threads)
    requires SysEnabled(c, sys, Call(i, side, g, p))
  {
    Barrier.Move(Calls(c), WorkerId(c.rx, g, p), ThreadOf(c, sys, i, side, g, p)).call > ThreadOf(c, sys, i, side, g, p).call
  }

  /** Whoever returns from a barrier call, every other worker it waits for stands at that call or is
      past it. */
  lemma OtherReached(c: Config, sys: System, i: nat, side: Side, g: nat, p: nat, i': nat, side': Side, g': nat, p': nat)
    requires c.Valid() && Gated(c, sys) && SysEnabled(c, sys, Call(i, side, g, p)) && Returns(c, sys, i, side, g, p)
    requires i' < |sys.job| && g' < c.rx && p' < c.w
    requires Calls(c)[ThreadOf(c, sys, i, side, g, p).call] || (i == i' && side == side')
    ensures sys.job[i'].StageAt(c, side', g', p') >= sys.job[i].StageAt(c, side, g, p)
  {
    WorkerInTeam(c, g, p);
    WorkerInTeam(c, g', p');
    var r, t := Rank(|sys.job|, i, side), WorkerId(c.rx, g, p);
    var r', t' := Rank(|sys.job|, i', side'), WorkerId(c.rx, g', p');
    if (r, t) == (r', t') {
      OneWorkerPerThread(c, |sys.job|, i, side, g, p, i', side', g', p');
    } else {
      Barrier.ReturnFindsAll(Calls(c), sys.threads, r, t, r', t');
      EnteredReached(c, sys.job[i'].StageAt(c, side', g', p'), sys.threads[r'][t'], sys.threads[r][t].call);
    }
  }

  /** A return from a proc_barrier finds the whole job at the barrier; a return from any barrier finds
      the own process there. */
  lemma ReturnReached(c: Config, sys: System, i: nat, side: Side, g: nat, p: nat)
    requires c.Valid() && Gated(c, sys) && SysEnabled(c, sys, Call(i, side, g, p)) && Returns(c, sys, i, side, g, p)
    ensures Calls(c)[ThreadOf(c, sys, i, side, g, p).call] ==> JobReached(c, sys.job, sys.job[i].StageAt(c, side, g, p))
    ensures sys.job[i].SideReached(c, side, sys.job[i].StageAt(c, side, g, p))
  {
    var b := sys.job[i].StageAt(c, side, g, p);
    forall g': nat, p': nat | g' < c.rx && p' < c.w ensures sys.job[i].StageAt(c, side, g', p') >= b {
      OtherReached(c, sys, i, side, g, p, i, side, g', p');
    }
    if Calls(c)[ThreadOf(c, sys, i, side, g, p).call] {
      forall i': nat, side': Side, g': nat, p': nat | i' < |sys.job| && g' < c.rx && p' < c.w
        ensures sys.job[i'].StageAt(c, side', g', p') >= b
      {
        OtherReached(c, sys, i, side, g, p, i', side', g', p');
      }
    }
  }

  /** With everybody there, crossing the gate and returning from the call are the same. */
  lemma CrossReturns(c: Config, job: seq<Pair>, i: nat, side: Side, g: nat, p: nat)
    requires c.Valid() && JobShape(c, job) && i < |job| && g < c.rx && p < c.w
    requires var b := job[i].StageAt(c, side, g, p);
             || (PointAt(c, b).ProcBarrier? && JobReached(c, job, b))
             || (PointAt(c, b).ThreadBarrier? && job[i].SideReached(c, side, b))
    ensures JobEnabled(c, job, i, Cross(side, g, p))
    ensures Returned(c, job, i, side, g, p) == JobApply(c, job, i, Cross(side, g, p))
  {
  }

  /** The real barrier lets a worker through only when the gate of `PingPong` is open. */
  lemma ReturnIsCross(c: Config, sys: System, i: nat, side: Side, g: nat, p: nat)
    requires c.Valid() && Gated(c, sys) && SysEnabled(c, sys, Call(i, side, g, p)) && Returns(c, sys, i, side, g, p)
    ensures JobEnabled(c, sys.job, i, Cross(side, g, p))
    ensures Returned(c, sys.job, i, side, g, p) == JobApply(c, sys.job, i, Cross(side, g, p))
  {
    CallPoint(c, ThreadOf(c, sys, i, side, g, p).call);
    ReturnReached(c, sys, i, side, g, p);
    CrossReturns(c, sys.job, i, side, g, p);
  }

  // ---- Every run of the system is a run of the protocol ----

  lemma OwnKeepsFollows(c: Config, sys: System, i: nat, step: Step, i': nat, side: Side, g: nat, p: nat)
    requires c.Valid() && Gated(c, sys) && SysEnabled(c, sys, Own(i, step))
    requires i' < |sys.job| && g < c.rx && p < c.w
    ensures JobApply(c, sys.job, i, step)[i'].Shape(c)
    ensures Follows(c, JobApply(c, sys.job, i, step)[i'].StageAt(c, side, g, p), ThreadOf(c, sys, i', side, g, p))
  {
    var open := RestReached(c, sys.job, i, StepStage(c, sys.job[i], step));
    ApplyShape(c, sys.job[i], open, step);
    var stage := sys.job[i'].StageAt(c, side, g, p);
    assert Follows(c, stage, ThreadOf(c, sys, i', side, g, p));
    if i == i' && IsWorkerStep(step) && side == step.side && g == step.g && p == step.p {
      OwnWorkerMoved(c, sys.job[i], open, step);
      NotAtCall(c, stage, ThreadOf(c, sys, i', side, g, p));
    } else if i == i' {
      OtherWorkerKept(c, sys.job[i], open, step, side, g, p);
    }
  }

  /** A worker at a reset or in a loop is not inside a barrier, and the next one is ahead of it. */
  lemma NotAtCall(c: Config, stage: nat, t: Barrier.Thread)
    requires Follows(c, stage, t) && (PointAt(c, stage).ResetPoint? || PointAt(c, stage).Loop?)
    ensures t.at == 0 && Follows(c, stage + 1, t)
  {
    if t.call < |Calls(c)| {
      CallPoint(c, t.call);
    }
  }

  lemma OwnGated(c: Config, sys: System, i: nat, step: Step)
    requires c.Valid() && Gated(c, sys) && SysEnabled(c, sys, Own(i, step))
    ensures Gated(c, SysApply(c, sys, Own(i, step)))
  {
    ApplyShape(c, sys.job[i], RestReached(c, sys.job, i, StepStage(c, sys.job[i], step)), step);
    var sys' := SysApply(c, sys, Own(i, step));
    forall i': nat, side: Side, g: nat, p: nat | i' < |sys'.job| && g < c.rx && p < c.w
      ensures Follows(c, sys'.job[i'].StageAt(c, side, g, p), ThreadOf(c, sys', i', side, g, p))
    {
      OwnKeepsFollows(c, sys, i, step, i', side, g, p);
    }
  }

  /** A move inside a call, or the return from it with the worker a stage further. */
  lemma MoveFollows(c: Config, stage: nat, j: nat, t: Barrier.Thread)
    requires Barrier.ThreadOk(Calls(c), j, t) && t.call < |Calls(c)| && stage == CallStage(c, t.call)
    ensures var t' := Barrier.Move(Calls(c), j, t); Follows(c, if t'.call > t.call then stage + 1 else stage, t')
  {
    if t.call + 1 < |Calls(c)| {
      CallStagesRise(c, t.call, t.call + 1);
    }
    if t.call > 0 {
      CallStagesRise(c, t.call - 1, t.call);
    }
  }

  lemma ReturnedStage(c: Config, job: seq<Pair>, i: nat, side: Side, g: nat, p: nat, i': nat, side': Side, g': nat, p': nat)
    requires JobShape(c, job) && i < |job| && g < c.rx && p < c.w && i' < |job| && g' < c.rx && p' < c.w
    ensures Returned(c, job, i, side, g, p)[i'].Shape(c)
    ensures Returned(c, job, i, side, g, p)[i'].StageAt(c, side', g', p')
            == job[i'].StageAt(c, side', g', p') + if (i, side, g, p) == (i', side', g', p') then 1 else 0
  {
    var h := job[i].Of(side)[g];
    PutShape(c, job[i], side, g, SetWorker(h, p, h.workers[p].Advance()));
  }

  lemma CallFits(c: Config, sys: System, i: nat, side: Side, g: nat, p: nat)
    requires c.Valid() && Fits(c, sys) && Barrier.Shape(Calls(c), sys.threads) && SysEnabled(c, sys, Call(i, side, g, p))
    ensures Fits(c, SysApply(c, sys, Call(i, side, g, p)))
  {
    WorkerInTeam(c, g, p);
    forall i' | 0 <= i' < |sys.job| ensures Returned(c, sys.job, i, side, g, p)[i'].Shape(c) {
      ReturnedStage(c, sys.job, i, side, g, p, i', Sender, 0, 0);
    }
  }

  lemma ThreadMoved(c: Config, sys: System, i: nat, side: Side, g: nat, p: nat, i': nat, side': Side, g': nat, p': nat)
    requires c.Valid() && Fits(c, sys) && Barrier.Shape(Calls(c), sys.threads) && SysEnabled(c, sys, Call(i, side, g, p))
    requires i' < |sys.job| && g' < c.rx && p' < c.w && Fits(c, SysApply(c, sys, Call(i, side, g, p)))
    ensures ThreadOf(c, SysApply(c, sys, Call(i, side, g, p)), i', side', g', p')
            == if (i, side, g, p) == (i', side', g', p')
               then Barrier.Move(Calls(c), WorkerId(c.rx, g, p), ThreadOf(c, sys, i, side, g, p))
               else ThreadOf(c, sys, i', side', g', p')
  {
    WorkerInTeam(c, g, p);
    WorkerInTeam(c, g', p');
    if Rank(|sys.job|, i', side') == Rank(|sys.job|, i, side) && WorkerId(c.rx, g', p') == WorkerId(c.rx, g, p) {
      OneWorkerPerThread(c, |sys.job|, i, side, g, p, i', side', g', p');
    }
  }

  lemma WorkerMoved(c: Config, sys: System, i: nat, side: Side, g: nat, p: nat, i': nat, side': Side, g': nat, p': nat)
    requires c.Valid() && Fits(c, sys) && Barrier.Shape(Calls(c), sys.threads) && SysEnabled(c, sys, Call(i, side, g, p))
    requires i' < |sys.job| && g' < c.rx && p' < c.w && Fits(c, SysApply(c, sys, Call(i, side, g, p)))
    ensures SysApply(c, sys, Call(i, side, g, p)).job[i'].StageAt(c, side', g', p') == sys.job[i'].StageAt(c, side', g', p')
            + if (i, side, g, p) == (i', side', g', p') && Returns(c, sys, i, side, g, p) then 1 else 0
  {
    ReturnedStage(c, sys.job, i, side, g, p, i', side', g', p');
  }

  lemma CallKeepsFollows(c: Config, sys: System, i: nat, side: Side, g: nat, p: nat, i': nat, side': Side, g': nat, p': nat)
    requires c.Valid() && Gated(c, sys) && SysEnabled(c, sys, Call(i, side, g, p))
    requires i' < |sys.job| && g' < c.rx && p' < c.w && Fits(c, SysApply(c, sys, Call(i, side, g, p)))
    ensures var sys' := SysApply(c, sys, Call(i, side, g, p));
            Follows(c, sys'.job[i'].StageAt(c, side', g', p'), ThreadOf(c, sys', i', side', g', p'))
  {
    assert Follows(c, sys.job[i'].StageAt(c, side', g', p'), ThreadOf(c, sys, i', side', g', p'));
    ThreadMoved(c, sys, i, side, g, p, i', side', g', p');
    WorkerMoved(c, sys, i, side, g, p, i', side', g', p');
    MoveFollows(c, sys.job[i].StageAt(c, side, g, p), WorkerId(c.rx, g, p), ThreadOf(c, sys, i, side, g, p));
  }

  lemma CallGated(c: Config, sys: System, i: nat, side: Side, g: nat, p: nat)
    requires c.Valid() && Gated(c, sys) && SysEnabled(c, sys, Call(i, side, g, p))
    ensures Gated(c, SysApply(c, sys, Call(i, side, g, p)))
  {
    CallFits(c, sys, i, side, g, p);
    Barrier.StepInv(Calls(c), sys.threads, Rank(|sys.job|, i, side), WorkerId(c.rx, g, p));
    var sys' := SysApply(c, sys, Call(i, side, g, p));
    forall i': nat, side': Side, g': nat, p': nat | i' < |sys'.job| && g' < c.rx && p' < c.w
      ensures Follows(c, sys'.job[i'].StageAt(c, side', g', p'), ThreadOf(c, sys', i', side', g', p'))
    {
      CallKeepsFollows(c, sys, i, side, g, p, i', side', g', p');
    }
  }

  /** Every step of the system is a step of the protocol, or changes nothing the protocol sees. */
  lemma StepRefines(c: Config, sys: System, st: SysStep)
    requires c.Valid() && Gated(c, sys) && SysEnabled(c, sys, st)
    ensures Gated(c, SysApply(c, sys, st))
    ensures SysApply(c, sys, st).job == sys.job || JobNext(c, sys.job, SysApply(c, sys, st).job)
  {
    match st
    case Own(i, step) => OwnGated(c, sys, i, step);
    case Call(i, side, g, p) =>
      CallGated(c, sys, i, side, g, p);
      if Returns(c, sys, i, side, g, p) {
        ReturnIsCross(c, sys, i, side, g, p);
      }
  }

  lemma InitFollows(c: Config, n: nat, i: nat, side: Side, g: nat, p: nat)
    requires c.Valid() && Fits(c, InitSystem(c, n)) && i < n && g < c.rx && p < c.w
    ensures Follows(c, InitSystem(c, n).job[i].StageAt(c, side, g, p), ThreadOf(c, InitSystem(c, n), i, side, g, p))
  {
    WorkerInTeam(c, g, p);
  }

  lemma InitGated(c: Config, n: nat)
    requires c.Valid()
    ensures Gated(c, InitSystem(c, n))
  {
    InitInv(c);
    WorkerInTeam(c, 0, 0);
    Barrier.InitInv(Calls(c), seq(2 * n, _ => c.Tx()));
    forall i: nat, side: Side, g: nat, p: nat | i < n && g < c.rx && p < c.w
      ensures Follows(c, InitSystem(c, n).job[i].StageAt(c, side, g, p), ThreadOf(c, InitSystem(c, n), i, side, g, p))
    {
      InitFollows(c, n, i, side, g, p);
    }
  }

  /** The pairs of every state of every run of the system are the last state of a run of the protocol,
      so whatever holds of all runs of the protocol holds with the real barrier. */
  lemma {:induction false} SystemRefines(c: Config, n: nat, run: seq<System>, k: nat) returns (spec: seq<seq<Pair>>)
    requires c.Valid() && IsSysRun(c, n, run) && k < |run|
    ensures Gated(c, run[k]) && IsRun(c, n, spec) && spec[|spec| - 1] == run[k].job
  {
    if k == 0 {
      InitGated(c, n);
      spec := [InitJob(c, n)];
    } else {
      spec := SystemRefines(c, n, run, k - 1);
      assert SysNext(c, run[k - 1], run[k - 1 + 1]);
      var st :| SysEnabled(c, run[k - 1], st) && run[k] == SysApply(c, run[k - 1], st);
      StepRefines(c, run[k - 1], st);
      if run[k].job != run[k - 1].job {
        ExtendRun(c, n, spec, run[k].job);
        spec := spec + [run[k].job];
      }
    }
  }

  // ---- Nobody is left waiting, and every run ends ----

  lemma WorkerOfThread(c: Config, sys: System, r: nat, j: nat) returns (i: nat, side: Side, g: nat, p: nat)
    requires c.Valid() && Fits(c, sys) && r < |sys.threads| && j < c.Tx()
    ensures i < |sys.job| && g < c.rx && p < c.w && Rank(|sys.job|, i, side) == r && WorkerId(c.rx, g, p) == j
  {
    ThreadHasWorker(c, j);
    side := if r < |sys.job| then Sender else Receiver;
    i, g, p := if r < |sys.job| then r else r - |sys.job|, j % c.rx, j / c.rx;
  }

  lemma CallOfStage(c: Config, stage: nat, t: Barrier.Thread)
    requires Follows(c, stage, t) && CallAt(c, stage) < |Calls(c)| && CallStage(c, CallAt(c, stage)) == stage
    ensures t.call == CallAt(c, stage)
  {
    var k := CallAt(c, stage);
    if t.call > k + 1 {
      CallStagesRise(c, k, t.call - 1);
    } else if t.call < k {
      CallStagesRise(c, t.call, k);
    }
  }

  lemma LeastStandsThere(c: Config, stage: nat, t: Barrier.Thread, b: nat, u: Barrier.Thread)
    requires Follows(c, stage, t) && u.call < |Calls(c)| && b == CallStage(c, u.call)
    requires stage >= b && Barrier.Position(t) <= Barrier.Position(u) && u.at <= 5
    ensures t.call == u.call && stage == b
  {
    if t.call < u.call {
      CallStagesRise(c, t.call, u.call);
    }
  }

  /** A worker at a barrier that everybody has reached: the thread least far stands at that barrier. */
  lemma LeastAtBarrier(c: Config, sys: System, i: nat, side: Side, g: nat, p: nat, i': nat, side': Side, g': nat, p': nat)
    requires c.Valid() && Gated(c, sys) && i < |sys.job| && g < c.rx && p < c.w && i' < |sys.job| && g' < c.rx && p' < c.w
    requires var t := ThreadOf(c, sys, i, side, g, p);
             && t.call < |Calls(c)| && JobReached(c, sys.job, CallStage(c, t.call))
             && Barrier.Position(ThreadOf(c, sys, i', side', g', p')) <= Barrier.Position(t)
    ensures sys.job[i'].StageAt(c, side', g', p') == CallStage(c, ThreadOf(c, sys, i', side', g', p').call)
  {
    var t, t' := ThreadOf(c, sys, i, side, g, p), ThreadOf(c, sys, i', side', g', p');
    var stage := sys.job[i'].StageAt(c, side', g', p');
    WorkerInTeam(c, g, p);
    assert Barrier.ThreadOk(Calls(c), WorkerId(c.rx, g, p), t);
    assert Follows(c, stage, t');
    assert sys.job[i'].Reached(c, CallStage(c, t.call));
    LeastStandsThere(c, stage, t', CallStage(c, t.call), t);
  }

  /** A worker at a barrier: its thread has not made all its calls. */
  lemma StandsAtCall(c: Config, sys: System, i: nat, side: Side, g: nat, p: nat)
    requires c.Valid() && Gated(c, sys) && i < |sys.job| && g < c.rx && p < c.w
    requires var b := sys.job[i].StageAt(c, side, g, p); PointAt(c, b).ProcBarrier? || PointAt(c, b).ThreadBarrier?
    ensures var t := ThreadOf(c, sys, i, side, g, p);
            t.call < |Calls(c)| && CallStage(c, t.call) == sys.job[i].StageAt(c, side, g, p)
    ensures !Barrier.AllDone(Calls(c), sys.threads)
  {
    BarrierPoints(c, sys.job[i].StageAt(c, side, g, p));
    WorkerInTeam(c, g, p);
    CallOfStage(c, sys.job[i].StageAt(c, side, g, p), ThreadOf(c, sys, i, side, g, p));
  }

  lemma BarrierCanMove(c: Config, sys: System, i: nat, side: Side, g: nat, p: nat) returns (st: SysStep)
    requires c.Valid() && Gated(c, sys) && i < |sys.job| && g < c.rx && p < c.w
    requires var b := sys.job[i].StageAt(c, side, g, p);
             JobReached(c, sys.job, b) && (PointAt(c, b).ProcBarrier? || PointAt(c, b).ThreadBarrier?)
    ensures SysEnabled(c, sys, st)
  {
    StandsAtCall(c, sys, i, side, g, p);
    var r, j := Barrier.BarrierProgress(Calls(c), sys.threads);
    var i', side', g', p' := WorkerOfThread(c, sys, r, j);
    WorkerInTeam(c, g, p);
    LeastAtBarrier(c, sys, i, side, g, p, i', side', g', p');
    st := Call(i', side', g', p');
  }

  /** In every run of the system some step is enabled until every worker of every process is done. */
  lemma SystemDeadlockFreedom(c: Config, n: nat, run: seq<System>) returns (st: SysStep)
    requires c.Valid() && IsSysRun(c, n, run)
    requires JobShape(c, run[|run| - 1].job) && !JobDone(c, run[|run| - 1].job)
    ensures Fits(c, run[|run| - 1]) && Barrier.Shape(Calls(c), run[|run| - 1].threads)
    ensures SysEnabled(c, run[|run| - 1], st)
  {
    var sys := run[|run| - 1];
    var spec := SystemRefines(c, n, run, |run| - 1);
    RunInv(c, n, spec, |spec| - 1);
    var i, step := JobCanStepFreely(c, sys.job, 4 * c.Phases() + 1);
    if step.Cross? {
      st := BarrierCanMove(c, sys, i, step.side, step.g, step.p);
    } else {
      st := Own(i, step);
    }
  }

  /** Moves a thread has still to make, at most. */
  function MovesLeft(c: Config, t: Barrier.Thread): nat {
    if Barrier.Position(t) <= 6 * |Calls(c)| then 6 * |Calls(c)| - Barrier.Position(t) else 0
  }

  function TeamMoves(c: Config, team: seq<Barrier.Thread>): (r: seq<nat>)
    ensures |r| == |team|
  {
    seq(|team|, j requires 0 <= j < |team| => MovesLeft(c, team[j]))
  }

  function TeamsMoves(c: Config, threads: Barrier.Job): (r: seq<nat>)
    ensures |r| == |threads|
  {
    seq(|threads|, r requires 0 <= r < |threads| => Sum(TeamMoves(c, threads[r])))
  }

  function SysMeasure(c: Config, sys: System): nat {
    JobMeasure(c, sys.job) + Sum(TeamsMoves(c, sys.threads))
  }

  lemma MoveUsed(c: Config, j: nat, t: Barrier.Thread)
    requires Barrier.ThreadOk(Calls(c), j, t) && t.call < |Calls(c)|
    ensures MovesLeft(c, Barrier.Move(Calls(c), j, t)) < MovesLeft(c, t)
  {
  }

  lemma MovesDecrease(c: Config, threads: Barrier.Job, r: nat, j: nat)
    requires Barrier.Shape(Calls(c), threads) && Barrier.Enabled(Calls(c), threads, r, j)
    ensures Sum(TeamsMoves(c, Barrier.Step(Calls(c), threads, r, j))) < Sum(TeamsMoves(c, threads))
  {
    var t' := Barrier.Move(Calls(c), j, threads[r][j]);
    MoveUsed(c, j, threads[r][j]);
    var team := threads[r][j := t'];
    assert TeamMoves(c, team) == TeamMoves(c, threads[r])[j := MovesLeft(c, t')];
    SumUpdate(TeamMoves(c, threads[r]), j, MovesLeft(c, t'));
    assert TeamsMoves(c, Barrier.Step(Calls(c), threads, r, j)) == TeamsMoves(c, threads)[r := Sum(TeamMoves(c, team))];
    SumUpdate(TeamsMoves(c, threads), r, Sum(TeamMoves(c, team)));
  }

  lemma SysStepDecreases(c: Config, sys: System, st: SysStep)
    requires c.Valid() && Gated(c, sys) && JobInv(c, sys.job) && SysEnabled(c, sys, st)
    ensures SysMeasure(c, SysApply(c, sys, st)) < SysMeasure(c, sys)
  {
    StepRefines(c, sys, st);
    if SysApply(c, sys, st).job != sys.job {
      JobNextDecreases(c, sys.job, SysApply(c, sys, st).job);
    }
    match st
    case Own(i, step) => JobStepDecreases(c, sys.job, i, step);
    case Call(i, side, g, p) => MovesDecrease(c, sys.threads, Rank(|sys.job|, i, side), WorkerId(c.rx, g, p));
  }

  lemma SysNextDecreases(c: Config, sys: System, sys': System)
    requires c.Valid() && Gated(c, sys) && JobInv(c, sys.job) && SysNext(c, sys, sys')
    ensures SysMeasure(c, sys') < SysMeasure(c, sys)
  {
    var st :| SysEnabled(c, sys, st) && sys' == SysApply(c, sys, st);
    SysStepDecreases(c, sys, st);
  }

  lemma RunStepDecreases(c: Config, n: nat, run: seq<System>, k: nat)
    requires c.Valid() && IsSysRun(c, n, run) && k + 1 < |run|
    ensures SysMeasure(c, run[k + 1]) < SysMeasure(c, run[k])
  {
    var spec := SystemRefines(c, n, run, k);
    RunInv(c, n, spec, |spec| - 1);
    assert SysNext(c, run[k], run[k + 1]);
    SysNextDecreases(c, run[k], run[k + 1]);
  }

  /** No run of the system is longer than the measure of its first state, for any schedule. */
  lemma {:induction false} SystemRunsAreFinite(c: Config, n: nat, run: seq<System>, k: nat)
    requires c.Valid() && IsSysRun(c, n, run) && k < |run|
    ensures k + SysMeasure(c, run[k]) <= SysMeasure(c, InitSystem(c, n))
  {
    if k > 0 {
      SystemRunsAreFinite(c, n, run, k - 1);
      RunStepDecreases(c, n, run, k - 1);
    }
  }
}

/** The progress-thread ping-pong benchmark as a state machine
    (benchmark/pingpong_prg.cpp driven by RUN_VARY_MSG of include/comm_exp.hpp).

    One `Pair` is a sending process and the receiving process it talks to. Each process runs
    rx progress threads; progress thread g serves the w = tx / rx workers g, g + rx, g + 2rx, ...
    A `Half` is one progress thread of one process together with its workers. Worker p of half g
    is the source's thread WorkerId(rx, g, p). All traffic of a worker goes to the progress thread
    of the same number on the peer (addrs[thread_id % rx_thread_num]).

    Every thread executes the same straight line of program points ("stages"). Phase q occupies
    stages 4q .. 4q+3: reset_counters, proc_barrier, the loop, and the barrier after the loop.
    Even phases are warm-ups (SKIP iterations, counters reset to 0, proc_barrier at the end);
    odd phases are measured (TOTAL iterations, counters reset to the prefill, thread_barrier at
    the end). One message size is two phases. The final proc_barrier is stage 4 * Phases(). */
module PingPong {
  import opened Options
  import opened RoundRobin

  const PREPOSTED: nat := 2048
  const POLL_BATCH: nat := 16

  datatype Side = Sender | Receiver {
    function Peer(): Side {
      if Sender? then Receiver else Sender
    }
  }

  /** rx progress threads with w workers each (tx = rx * w), number of message sizes,
      warm-up and measured iterations, prefilled work. */
  datatype Config = Config(rx: nat, w: nat, sizes: nat, skip: nat, total: nat, prefill: nat) {
    predicate Valid() { 0 < rx && 0 < w }

    function Tx(): nat { rx * w }

    function Phases(): nat { 2 * sizes }

    function Iters(q: nat): nat { if q % 2 == 0 then skip else total }

    function Prefill(q: nat): nat { if q % 2 == 0 then 0 else prefill }

    /** Stage of the loop of phase q. */
    function LoopStage(q: nat): nat { 4 * q + 2 }
  }

  datatype Point = ResetPoint | ProcBarrier | Loop | ThreadBarrier | Finished

  function PointAt(c: Config, stage: nat): Point {
    if stage > 4 * c.Phases() then Finished
    else if stage == 4 * c.Phases() then ProcBarrier
    else if stage % 4 == 0 then ResetPoint
    else if stage % 4 == 1 then ProcBarrier
    else if stage % 4 == 2 then Loop
    else if (stage / 4) % 2 == 0 then ProcBarrier
    else ThreadBarrier
  }

  /** `mid`: a sender has sent and waits; a receiver has taken a message and owes the reply. */
  datatype Worker = Worker(stage: nat, iter: nat, mid: bool) {
    function Advance(): Worker { Worker(stage + 1, 0, false) }
  }

  /** One progress thread and its workers.
      wire: messages under way to it; cq: completions not yet polled; polled: completions of the
      current batch not yet handed out; held: worker picked, cursor already advanced, counter not
      yet incremented; spent: receives of the batch not yet reposted; posted: receives posted.
      `picks` and `bumps` are auxiliary: workers picked and counters incremented since the last reset.
      Nothing reads them but the account of what a reset can race with. */
  datatype Half = Half(workers: seq<Worker>, syncs: seq<nat>, wire: nat, cq: nat, polled: nat,
                       held: Option<nat>, spent: nat, posted: nat, cursor: nat, picks: nat, bumps: nat)

  datatype Pair = Pair(snd: seq<Half>, rcv: seq<Half>) {
    function Of(side: Side): seq<Half> {
      if side.Sender? then snd else rcv
    }

    function With(side: Side, hs: seq<Half>): Pair {
      if side.Sender? then Pair(hs, rcv) else Pair(snd, hs)
    }

    function Put(side: Side, g: nat, h: Half): Pair
      requires g < |Of(side)|
    {
      With(side, Of(side)[g := h])
    }

    predicate Shape(c: Config) {
      && |snd| == |rcv| == c.rx
      && forall side: Side, g | 0 <= g < c.rx :: HalfShape(c, Of(side)[g])
    }

    function WorkerAt(c: Config, side: Side, g: nat, p: nat): Worker
      requires Shape(c) && g < c.rx && p < c.w
    {
      Of(side)[g].workers[p]
    }

    function StageAt(c: Config, side: Side, g: nat, p: nat): nat
      requires Shape(c) && g < c.rx && p < c.w
    {
      WorkerAt(c, side, g, p).stage
    }

    /** Every worker of this process has reached stage b. */
    predicate SideReached(c: Config, side: Side, b: nat)
      requires Shape(c)
    {
      forall g: nat, p: nat | g < c.rx && p < c.w :: StageAt(c, side, g, p) >= b
    }

    /** Every worker of both processes has reached stage b. */
    predicate Reached(c: Config, b: nat)
      requires Shape(c)
    {
      SideReached(c, Sender, b) && SideReached(c, Receiver, b)
    }
  }

  predicate HalfShape(c: Config, h: Half) {
    |h.workers| == c.w && |h.syncs| == c.w
  }

  /** Start-up: counters 0, cursors at the thread ids, receives preposted, nothing in flight. */
  function InitHalf(c: Config, g: nat): Half {
    Half(seq(c.w, _ => Worker(0, 0, false)), seq(c.w, _ => 0), 0, 0, 0, None, 0, PREPOSTED, g, 0, 0)
  }

  function InitPair(c: Config): Pair {
    var hs := seq(c.rx, g requires 0 <= g => InitHalf(c, g));
    Pair(hs, hs)
  }

  /** reset_counters stores counters and cursors one by one, and a progress thread may dispatch
      meanwhile. Its dispatches are taken as made before the reset; `kept` are those increments that
      came after the store of the counter, `start` is the position at which the cursor is left. */
  datatype Race = Race(kept: seq<nat>, start: nat)

  function NoRace(c: Config): Race {
    Race(seq(c.w, _ => 0), 0)
  }

  function NoRaces(c: Config): seq<Race> {
    seq(c.rx, _ => NoRace(c))
  }

  /** Whatever is kept is in the counters. Without a dispatch that is half done or in the counters
      there was no race. */
  predicate RaceOk(c: Config, h: Half, r: Race)
    requires HalfShape(c, h)
  {
    && |r.kept| == c.w && r.start < c.w
    && (forall p | 0 <= p < c.w :: r.kept[p] <= h.syncs[p])
    && (Undisturbed(c, h) ==> r == NoRace(c))
  }

  predicate Undisturbed(c: Config, h: Half)
    requires HalfShape(c, h)
  {
    h.held.None? && (h.bumps == 0 || forall p | 0 <= p < c.w :: h.syncs[p] == 0)
  }

  predicate RacesOk(c: Config, s: Pair, side: Side, races: seq<Race>)
    requires s.Shape(c)
  {
    |races| == c.rx && forall g: nat | g < c.rx :: RaceOk(c, s.Of(side)[g], races[g])
  }

  datatype Step =
    | Send(side: Side, g: nat, p: nat)     // isend to the peer's progress thread g
    | Take(side: Side, g: nat, p: nat)     // the wait for sync > 0 ends; --sync
    | Leave(side: Side, g: nat, p: nat)    // the loop is over
    | Cross(side: Side, g: nat, p: nat)    // return from a barrier
    | Reset(side: Side, g: nat, p: nat, races: seq<Race>) // reset_counters: acts for thread 0 only
    | Arrive(side: Side, g: nat)           // a message meets a posted receive
    | Poll(side: Side, g: nat, n: nat)     // progress() returns n completions
    | Pick(side: Side, g: nat)             // worker_idx = next_worker_idx; incrementWorkerIdx
    | Bump(side: Side, g: nat)             // ++syncs[worker_idx].sync
    | Repost(side: Side, g: nat)           // irecv of as many receives as were completed

  predicate IsWorkerStep(step: Step) {
    step.Send? || step.Take? || step.Leave? || step.Cross? || step.Reset?
  }

  /** `open`: the rest of the job has reached the proc_barrier this worker stands at. */
  predicate Enabled(c: Config, s: Pair, open: bool, step: Step)
    requires s.Shape(c)
  {
    && step.g < c.rx
    && (IsWorkerStep(step) ==> step.p < c.w)
    && var h := s.Of(step.side)[step.g];
       match step
       case Send(side, g, p) =>
         var w := h.workers[p];
         InLoop(c, w) && w.iter < c.Iters(w.stage / 4) && w.mid == side.Receiver?
       case Take(side, g, p) =>
         var w := h.workers[p];
         InLoop(c, w) && w.iter < c.Iters(w.stage / 4) && w.mid == side.Sender? && h.syncs[p] > 0
       case Leave(side, g, p) =>
         var w := h.workers[p];
         InLoop(c, w) && w.iter == c.Iters(w.stage / 4) && !w.mid
       case Cross(side, g, p) =>
         var b := h.workers[p].stage;
         || (PointAt(c, b).ProcBarrier? && open && s.Reached(c, b))
         || (PointAt(c, b).ThreadBarrier? && s.SideReached(c, side, b))
       case Reset(side, g, p, races) =>
         PointAt(c, h.workers[p].stage).ResetPoint? && (IsLeadReset(step) ==> RacesOk(c, s, side, races))
       case Arrive(side, g) => h.wire > 0 && h.posted > 0
       case Poll(side, g, n) =>
         h.polled == 0 && h.held.None? && h.spent == 0 && 1 <= n <= POLL_BATCH && n <= h.cq
       case Pick(side, g) => h.polled > 0 && h.held.None?
       case Bump(side, g) => h.held.Some? && h.held.value / c.rx < c.w
       case Repost(side, g) => h.polled == 0 && h.held.None? && h.spent > 0
  }

  predicate InLoop(c: Config, w: Worker) {
    PointAt(c, w.stage).Loop?
  }

  function SetWorker(h: Half, p: nat, w: Worker): Half
    requires p < |h.workers|
  {
    h.(workers := h.workers[p := w])
  }

  /** What reset_counters(count) does to one progress thread and its workers. */
  function ResetHalf(c: Config, h: Half, g: nat, count: nat, r: Race): Half
    requires HalfShape(c, h) && |r.kept| == c.w
  {
    h.(syncs := seq(c.w, p requires 0 <= p < c.w => count + r.kept[p]), cursor := WorkerId(c.rx, g, r.start), picks := 0, bumps := 0)
  }

  function ResetSide(c: Config, s: Pair, side: Side, count: nat, races: seq<Race>): Pair
    requires s.Shape(c) && RacesOk(c, s, side, races)
  {
    s.With(side, seq(c.rx, g requires 0 <= g < c.rx => ResetHalf(c, s.Of(side)[g], g, count, races[g])))
  }

  /** What a step does to the half it names. */
  function LocalStep(c: Config, h: Half, step: Step): Half
    requires c.Valid() && HalfShape(c, h)
    requires IsWorkerStep(step) ==> step.p < c.w
    requires step.Take? ==> h.syncs[step.p] > 0
    requires step.Arrive? ==> h.wire > 0 && h.posted > 0
    requires step.Poll? ==> step.n <= h.cq
    requires step.Pick? ==> h.polled > 0
    requires step.Bump? ==> h.held.Some? && h.held.value / c.rx < c.w
  {
    match step
    case Send(side, _, p) =>
      var w := h.workers[p];
      SetWorker(h, p, if side.Sender? then w.(mid := true) else w.(iter := w.iter + 1, mid := false))
    case Take(side, _, p) =>
      var w := h.workers[p];
      SetWorker(h, p, if side.Sender? then w.(iter := w.iter + 1, mid := false) else w.(mid := true))
        .(syncs := h.syncs[p := h.syncs[p] - 1])
    case Leave(_, _, p) => SetWorker(h, p, h.workers[p].Advance())
    case Cross(_, _, p) => SetWorker(h, p, h.workers[p].Advance())
    case Reset(_, _, p, _) => SetWorker(h, p, h.workers[p].Advance())
    case Arrive(_, _) => h.(wire := h.wire - 1, posted := h.posted - 1, cq := h.cq + 1)
    case Poll(_, _, n) => h.(cq := h.cq - n, polled := n)
    case Pick(_, g) =>
      h.(polled := h.polled - 1, held := Some(h.cursor), picks := h.picks + 1,
         cursor := IncrementWorkerIdx(c.Tx(), c.rx, g, h.cursor))
    case Bump(_, _) =>
      var p := h.held.value / c.rx;
      h.(held := None, spent := h.spent + 1, syncs := h.syncs[p := h.syncs[p] + 1], bumps := h.bumps + 1)
    case Repost(_, _) => h.(posted := h.posted + h.spent, spent := 0)
  }

  /** Thread 0 of a process executes reset_counters. */
  predicate IsLeadReset(step: Step) {
    step.Reset? && step.g == 0 && step.p == 0
  }

  function Apply(c: Config, s: Pair, open: bool, step: Step): Pair
    requires c.Valid() && s.Shape(c) && Enabled(c, s, open, step)
  {
    var side, g := step.side, step.g;
    var h := s.Of(side)[g];
    var base := if IsLeadReset(step) then ResetSide(c, s, side, c.Prefill(h.workers[0].stage / 4), step.races) else s;
    var moved := base.Put(side, g, LocalStep(c, base.Of(side)[g], step));
    if step.Send? then
      var peer := s.Of(side.Peer())[g];
      moved.Put(side.Peer(), g, peer.(wire := peer.wire + 1))
    else moved
  }

  /** Messages under way to a progress thread and not yet handed to a worker. */
  function InFlight(h: Half): nat {
    h.wire + h.cq + h.polled
  }

  function HeldCount(h: Half): nat {
    if h.held.Some? then 1 else 0
  }

  /** What must hold of a process when it executes reset_counters for the reset to destroy
      nothing: no message towards it, every counter 0, every cursor already at its thread's id. */
  predicate Quiescent(c: Config, s: Pair, side: Side)
    requires s.Shape(c)
  {
    forall g: nat | g < c.rx :: HalfQuiet(c, s.Of(side)[g], g)
  }

  predicate HalfQuiet(c: Config, h: Half, g: nat)
    requires HalfShape(c, h)
  {
    && InFlight(h) == 0 && h.held.None? && h.cursor == g
    && forall p | 0 <= p < c.w :: h.syncs[p] == 0
  }

  /** Thread 0 of the process stands at a call of reset_counters. */
  predicate AtReset(c: Config, s: Pair, side: Side)
    requires c.Valid() && s.Shape(c)
  {
    PointAt(c, s.StageAt(c, side, 0, 0)).ResetPoint?
  }

  predicate Done(c: Config, s: Pair)
    requires s.Shape(c)
  {
    s.Reached(c, 4 * c.Phases() + 1)
  }

  /** A job is any number of pairs; proc_barrier spans all of them. */
  predicate JobShape(c: Config, job: seq<Pair>) {
    forall i | 0 <= i < |job| :: job[i].Shape(c)
  }

  predicate RestReached(c: Config, job: seq<Pair>, i: nat, b: nat)
    requires JobShape(c, job)
  {
    forall j | 0 <= j < |job| && j != i :: job[j].Reached(c, b)
  }

  function StepStage(c: Config, s: Pair, step: Step): nat
    requires s.Shape(c)
  {
    if IsWorkerStep(step) && step.g < c.rx && step.p < c.w then s.StageAt(c, step.side, step.g, step.p) else 0
  }

  predicate JobEnabled(c: Config, job: seq<Pair>, i: nat, step: Step)
    requires JobShape(c, job)
  {
    i < |job| && Enabled(c, job[i], RestReached(c, job, i, StepStage(c, job[i], step)), step)
  }

  function JobApply(c: Config, job: seq<Pair>, i: nat, step: Step): seq<Pair>
    requires c.Valid() && JobShape(c, job) && JobEnabled(c, job, i, step)
  {
    job[i := Apply(c, job[i], RestReached(c, job, i, StepStage(c, job[i], step)), step)]
  }

  function InitJob(c: Config, n: nat): seq<Pair> {
    seq(n, _ => InitPair(c))
  }

  ghost predicate JobNext(c: Config, job: seq<Pair>, job': seq<Pair>)
    requires c.Valid()
  {
    JobShape(c, job) && exists i, step :: JobEnabled(c, job, i, step) && job' == JobApply(c, job, i, step)
  }

  /** A run: any interleaving of steps of any threads of any pair, from start-up. */
  ghost predicate IsRun(c: Config, n: nat, run: seq<seq<Pair>>)
    requires c.Valid()
  {
    && |run| > 0
    && run[0] == InitJob(c, n)
    && forall k | 0 <= k < |run| - 1 :: JobNext(c, run[k], run[k + 1])
  }
}

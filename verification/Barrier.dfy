/** The two-level barrier (include/thread_utils.hpp): proc_barrier is a thread barrier, a process
    barrier called by thread 0 alone, and the same thread barrier again; thread_barrier is the thread
    barrier alone. The two primitives are taken as what they are documented to be: a thread leaves its
    k-th OpenMP barrier only when every thread of its team has arrived at its k-th, and PMI_Barrier
    does not return from its k-th call before all processes have made theirs. */
module Barrier {

  /** The program: which barrier each thread calls 0th, 1st, 2nd, ... (true: proc_barrier). */
  type Calls = seq<bool>

  /** at 0: before the call; 1: arrived at the (first) thread barrier; and inside proc_barrier
      2: past it; 3: thread 0 inside PMI_Barrier; 4: thread 0 returned from it;
      5: arrived at the second thread barrier. */
  datatype Thread = Thread(call: nat, at: nat)

  /** Arrivals at the team's thread barrier that precede call k. */
  function TeamCalls(calls: Calls, k: nat): nat
    requires k <= |calls|
  {
    if k == 0 then 0 else TeamCalls(calls, k - 1) + (if calls[k - 1] then 2 else 1)
  }

  /** Calls of PMI_Barrier that precede call k. */
  function PmiCalls(calls: Calls, k: nat): nat
    requires k <= |calls|
  {
    if k == 0 then 0 else PmiCalls(calls, k - 1) + (if calls[k - 1] then 1 else 0)
  }

  function TeamArrived(calls: Calls, t: Thread): nat
    requires t.call <= |calls|
  {
    TeamCalls(calls, t.call) + (if t.at >= 1 then 1 else 0) + (if t.at >= 5 then 1 else 0)
  }

  function TeamLeft(calls: Calls, t: Thread): nat
    requires t.call <= |calls|
  {
    TeamCalls(calls, t.call) + (if t.at >= 2 then 1 else 0)
  }

  function PmiArrived(calls: Calls, t: Thread): nat
    requires t.call <= |calls|
  {
    PmiCalls(calls, t.call) + (if t.at >= 3 then 1 else 0)
  }

  function PmiLeft(calls: Calls, t: Thread): nat
    requires t.call <= |calls|
  {
    PmiCalls(calls, t.call) + (if t.at >= 4 then 1 else 0)
  }

  /** A job: for every process its team of threads; thread 0 of each calls PMI_Barrier. */
  type Job = seq<seq<Thread>>

  predicate ThreadOk(calls: Calls, j: nat, t: Thread) {
    && t.call <= |calls|
    && (t.call == |calls| ==> t.at == 0)
    && t.at <= 5
    && (t.call < |calls| && !calls[t.call] ==> t.at <= 1)
    && (j != 0 ==> t.at != 3 && t.at != 4)
  }

  predicate Shape(calls: Calls, job: Job) {
    && (forall i | 0 <= i < |job| :: 0 < |job[i]|)
    && forall i, j | 0 <= i < |job| && 0 <= j < |job[i]| :: ThreadOk(calls, j, job[i][j])
  }

  predicate TeamReached(calls: Calls, team: seq<Thread>, k: nat)
    requires forall j | 0 <= j < |team| :: team[j].call <= |calls|
  {
    forall j | 0 <= j < |team| :: TeamArrived(calls, team[j]) >= k
  }

  predicate PmiReached(calls: Calls, job: Job, k: nat)
    requires Shape(calls, job)
  {
    forall i | 0 <= i < |job| :: PmiArrived(calls, job[i][0]) >= k
  }

  /** The next step of thread j of process i, and whether it may be taken now. */
  predicate Enabled(calls: Calls, job: Job, i: nat, j: nat)
    requires Shape(calls, job)
  {
    && i < |job| && j < |job[i]|
    && var t := job[i][j];
       && t.call < |calls|
       && (t.at == 1 || t.at == 5 ==> TeamReached(calls, job[i], TeamArrived(calls, t)))
       && (t.at == 3 ==> PmiReached(calls, job, PmiArrived(calls, t)))
  }

  function Move(calls: Calls, j: nat, t: Thread): Thread
    requires t.call < |calls|
  {
    if t.at == 0 then t.(at := 1)
    else if t.at == 1 && !calls[t.call] then Thread(t.call + 1, 0)
    else if t.at == 1 then t.(at := 2)
    else if t.at == 2 then t.(at := if j == 0 then 3 else 5)
    else if t.at == 3 then t.(at := 4)
    else if t.at == 4 then t.(at := 5)
    else Thread(t.call + 1, 0)
  }

  function Step(calls: Calls, job: Job, i: nat, j: nat): Job
    requires Shape(calls, job) && Enabled(calls, job, i, j)
  {
    job[i := job[i][j := Move(calls, j, job[i][j])]]
  }

  function Init(teams: seq<nat>): Job {
    seq(|teams|, i requires 0 <= i < |teams| => seq(teams[i], _ => Thread(0, 0)))
  }

  ghost predicate Next(calls: Calls, job: Job, job': Job) {
    Shape(calls, job) && exists i, j :: Enabled(calls, job, i, j) && job' == Step(calls, job, i, j)
  }

  ghost predicate IsRun(calls: Calls, teams: seq<nat>, run: seq<Job>) {
    && |run| > 0 && run[0] == Init(teams)
    && forall k | 0 <= k < |run| - 1 :: Next(calls, run[k], run[k + 1])
  }

  /** Nobody has left a barrier that somebody else has not arrived at, on either level. */
  predicate Inv(calls: Calls, job: Job) {
    && Shape(calls, job)
    && (forall i, j, j' | 0 <= i < |job| && 0 <= j < |job[i]| && 0 <= j' < |job[i]| ::
          TeamLeft(calls, job[i][j]) <= TeamArrived(calls, job[i][j']))
    && (forall i, i' | 0 <= i < |job| && 0 <= i' < |job| ::
          PmiLeft(calls, job[i][0]) <= PmiArrived(calls, job[i'][0]))
  }

  lemma {:induction false} TeamCallsMonotone(calls: Calls, k: nat, n: nat)
    requires k <= n <= |calls|
    ensures TeamCalls(calls, k) <= TeamCalls(calls, n) && PmiCalls(calls, k) <= PmiCalls(calls, n)
  {
    if k < n {
      TeamCallsMonotone(calls, k, n - 1);
    }
  }

  /** What one move does to a thread's counts. */
  lemma MoveCounts(calls: Calls, j: nat, t: Thread)
    requires ThreadOk(calls, j, t) && t.call < |calls|
    ensures ThreadOk(calls, j, Move(calls, j, t))
    ensures var t' := Move(calls, j, t);
            && TeamArrived(calls, t) <= TeamArrived(calls, t') && PmiArrived(calls, t) <= PmiArrived(calls, t')
            && (if t.at == 1 || t.at == 5 then TeamLeft(calls, t') == TeamArrived(calls, t)
                else TeamLeft(calls, t') == TeamLeft(calls, t))
            && (j == 0 ==> if t.at == 3 then PmiLeft(calls, t') == PmiArrived(calls, t)
                           else PmiLeft(calls, t') == PmiLeft(calls, t))
  {
  }

  lemma StepInv(calls: Calls, job: Job, i: nat, j: nat)
    requires Inv(calls, job) && Enabled(calls, job, i, j)
    ensures Inv(calls, Step(calls, job, i, j))
  {
    MoveCounts(calls, j, job[i][j]);
    var job' := Step(calls, job, i, j);
    assert Shape(calls, job');
    forall a, b, b' | 0 <= a < |job'| && 0 <= b < |job'[a]| && 0 <= b' < |job'[a]|
      ensures TeamLeft(calls, job'[a][b]) <= TeamArrived(calls, job'[a][b'])
    {
      assert TeamLeft(calls, job[a][b]) <= TeamArrived(calls, job[a][b']);
      assert TeamArrived(calls, job[a][b']) <= TeamArrived(calls, job'[a][b']);
    }
    forall a, a' | 0 <= a < |job'| && 0 <= a' < |job'|
      ensures PmiLeft(calls, job'[a][0]) <= PmiArrived(calls, job'[a'][0])
    {
      assert PmiLeft(calls, job[a][0]) <= PmiArrived(calls, job[a'][0]);
      assert PmiArrived(calls, job[a'][0]) <= PmiArrived(calls, job'[a'][0]);
    }
  }

  lemma InitInv(calls: Calls, teams: seq<nat>)
    requires forall i | 0 <= i < |teams| :: 0 < teams[i]
    ensures Inv(calls, Init(teams))
  {
  }

  lemma {:induction false} RunInv(calls: Calls, teams: seq<nat>, run: seq<Job>, k: nat)
    requires (forall i | 0 <= i < |teams| :: 0 < teams[i]) && IsRun(calls, teams, run) && k < |run|
    ensures Inv(calls, run[k])
  {
    if k == 0 {
      InitInv(calls, teams);
    } else {
      RunInv(calls, teams, run, k - 1);
      assert Next(calls, run[k - 1], run[k - 1 + 1]);
      var i, j :| Enabled(calls, run[k - 1], i, j) && run[k] == Step(calls, run[k - 1], i, j);
      StepInv(calls, run[k - 1], i, j);
    }
  }

  /** A thread has entered its n-th barrier call. */
  predicate Entered(t: Thread, n: nat) {
    t.call > n || (t.call == n && t.at >= 1)
  }

  /** A count of team arrivals past those before call n pins the thread inside or past call n. */
  lemma ArrivedMeansEntered(calls: Calls, t: Thread, n: nat)
    requires t.call <= |calls| && n < |calls| && TeamArrived(calls, t) > TeamCalls(calls, n)
    requires t.call < |calls| && !calls[t.call] ==> t.at <= 1
    ensures Entered(t, n)
    ensures calls[n] && TeamArrived(calls, t) >= TeamCalls(calls, n) + 2 ==> t.call > n || (t.call == n && t.at >= 5)
  {
    if t.call < n {
      TeamCallsMonotone(calls, t.call + 1, n);
    }
  }

  lemma PmiMeansInside(calls: Calls, t: Thread, n: nat)
    requires t.call <= |calls| && n < |calls| && calls[n] && PmiArrived(calls, t) > PmiCalls(calls, n)
    requires t.call < |calls| && !calls[t.call] ==> t.at <= 1
    ensures t.call > n || (t.call == n && t.at >= 3)
  {
    if t.call < n {
      TeamCallsMonotone(calls, t.call + 1, n);
    }
  }

  /** A thread past its n-th call sees all of its own team inside or past theirs. */
  lemma TeamBarrierHolds(calls: Calls, job: Job, i: nat, j: nat, j': nat, n: nat)
    requires Inv(calls, job) && i < |job| && j < |job[i]| && j' < |job[i]|
    requires n < |calls| && job[i][j].call > n
    ensures Entered(job[i][j'], n)
    ensures calls[n] && j' == 0 ==> job[i][0].call > n || (job[i][0].call == n && job[i][0].at >= 5)
  {
    TeamCallsMonotone(calls, n + 1, job[i][j].call);
    assert TeamLeft(calls, job[i][j]) <= TeamArrived(calls, job[i][j']);
    ArrivedMeansEntered(calls, job[i][j'], n);
  }

  /** The barrier property: no thread returns from its n-th proc_barrier before every thread of
      every process has entered its n-th. For any teams, any mix of barrier calls, any interleaving. */
  lemma ProcBarrierHolds(calls: Calls, job: Job, i: nat, j: nat, i': nat, j': nat, n: nat)
    requires Inv(calls, job) && i < |job| && j < |job[i]| && i' < |job| && j' < |job[i']|
    requires n < |calls| && calls[n] && job[i][j].call > n
    ensures Entered(job[i'][j'], n)
  {
    TeamBarrierHolds(calls, job, i, j, 0, n);
    var z, z' := job[i][0], job[i'][0];
    if z.call > n {
      TeamCallsMonotone(calls, n + 1, z.call);
    }
    assert PmiLeft(calls, z) <= PmiArrived(calls, z');
    PmiMeansInside(calls, z', n);
    if z'.call > n {
      TeamCallsMonotone(calls, n + 1, z'.call);
    }
    assert TeamLeft(calls, z') <= TeamArrived(calls, job[i'][j']);
    ArrivedMeansEntered(calls, job[i'][j'], n);
  }

  /** Seen from the move that returns: everybody else the caller waits for has already entered. */
  lemma ReturnFindsAll(calls: Calls, job: Job, i: nat, j: nat, i': nat, j': nat)
    requires Inv(calls, job) && Enabled(calls, job, i, j) && i' < |job| && j' < |job[i']| && (i, j) != (i', j')
    requires Move(calls, j, job[i][j]).call > job[i][j].call && (calls[job[i][j].call] || i == i')
    ensures Entered(job[i'][j'], job[i][j].call)
  {
    StepInv(calls, job, i, j);
    var after, n := Step(calls, job, i, j), job[i][j].call;
    if calls[n] {
      ProcBarrierHolds(calls, after, i, j, i', j', n);
    } else {
      TeamBarrierHolds(calls, after, i, j, j', n);
    }
  }

  /** The barrier property over runs; a thread barrier gives it within the process. */
  lemma BarriersSeparate(calls: Calls, teams: seq<nat>, run: seq<Job>, k: nat, i: nat, j: nat, i': nat, j': nat, n: nat)
    requires (forall a | 0 <= a < |teams| :: 0 < teams[a]) && IsRun(calls, teams, run) && k < |run|
    requires i < |run[k]| && j < |run[k][i]| && i' < |run[k]| && j' < |run[k][i']|
    requires n < |calls| && run[k][i][j].call > n
    ensures calls[n] ==> Entered(run[k][i'][j'], n)
    ensures i == i' ==> Entered(run[k][i'][j'], n)
  {
    RunInv(calls, teams, run, k);
    if calls[n] {
      ProcBarrierHolds(calls, run[k], i, j, i', j', n);
    }
    if i == i' {
      TeamBarrierHolds(calls, run[k], i, j, j', n);
    }
  }

  // ---- Nobody is left waiting ----

  predicate AllDone(calls: Calls, job: Job) {
    forall i, j | 0 <= i < |job| && 0 <= j < |job[i]| :: job[i][j].call == |calls|
  }

  /** How far a thread is. */
  function Position(t: Thread): nat {
    6 * t.call + t.at
  }

  predicate Least(job: Job, i: nat, j: nat) {
    && i < |job| && j < |job[i]|
    && forall a, b | 0 <= a < |job| && 0 <= b < |job[a]| :: Position(job[i][j]) <= Position(job[a][b])
  }

  lemma LeastExists(job: Job, i: nat, j: nat) returns (i': nat, j': nat)
    requires i < |job| && j < |job[i]|
    ensures Least(job, i', j') && Position(job[i'][j']) <= Position(job[i][j])
    decreases Position(job[i][j])
  {
    if Least(job, i, j) {
      i', j' := i, j;
    } else {
      var a, b :| 0 <= a < |job| && 0 <= b < |job[a]| && Position(job[a][b]) < Position(job[i][j]);
      i', j' := LeastExists(job, a, b);
    }
  }

  lemma PositionOrdersCounts(calls: Calls, s: Thread, t: Thread)
    requires s.call <= |calls| && t.call <= |calls| && s.at <= 5 && Position(s) <= Position(t)
    requires t.at <= 5 && (s.call < |calls| && !calls[s.call] ==> s.at <= 1)
    ensures TeamArrived(calls, s) <= TeamArrived(calls, t) && PmiArrived(calls, s) <= PmiArrived(calls, t)
  {
    if s.call < t.call {
      TeamCallsMonotone(calls, s.call + 1, t.call);
    }
  }

  /** Until every thread has made every call, the thread that is least far can move. */
  lemma BarrierProgress(calls: Calls, job: Job) returns (i: nat, j: nat)
    requires Inv(calls, job) && !AllDone(calls, job)
    ensures Enabled(calls, job, i, j) && Least(job, i, j)
  {
    var a, b :| 0 <= a < |job| && 0 <= b < |job[a]| && job[a][b].call != |calls|;
    i, j := LeastExists(job, a, b);
    var t := job[i][j];
    assert ThreadOk(calls, j, t) && ThreadOk(calls, b, job[a][b]);
    forall y | 0 <= y < |job[i]| ensures TeamArrived(calls, t) <= TeamArrived(calls, job[i][y]) {
      assert Position(t) <= Position(job[i][y]);
      PositionOrdersCounts(calls, t, job[i][y]);
    }
    forall x | 0 <= x < |job| ensures PmiArrived(calls, t) <= PmiArrived(calls, job[x][0]) {
      assert Position(t) <= Position(job[x][0]);
      PositionOrdersCounts(calls, t, job[x][0]);
    }
  }
}

/** The symmetric ping-pong (benchmark/pingpong_sym.cpp): one pair of threads, each polling its own
    completion queues. A poll takes however many completions it finds and the loop then counts one
    message, so it matters that there is never more than one. */
module Symmetric {

  /** RX_QUEUE_LEN and the receives posted before the loop. */
  const QUEUE: nat := 4096
  const PREPOST: nat := 4093

  /** One side. pc counts the four statements of its loop body. `sending` are sends whose completion
      has not arrived, sendDone and recvDone completions not yet polled. */
  datatype Thread = Thread(pc: nat, iter: nat, posted: nat, sending: nat, sendDone: nat, recvDone: nat)

  /** The pair: the sender a, the receiver b, and messages under way in each direction. */
  datatype Pair = Pair(a: Thread, b: Thread, ab: nat, ba: nat)

  datatype Step =
    | SendA | PollSendA(n: nat) | PostA | PollRecvA(n: nat)
    | PostB | PollRecvB(n: nat) | SendB | PollSendB(n: nat)
    | SentA | SentB          // a send completes
    | ArriveA | ArriveB      // a message reaches a side and takes one of its posted receives

  /** A poll takes at least one completion and at most 16. */
  predicate Poll(n: nat, available: nat) { 1 <= n <= 16 && n <= available }

  predicate Enabled(total: nat, s: Pair, step: Step) {
    match step
    case SendA => s.a.pc == 0 && s.a.iter < total
    case PollSendA(n) => s.a.pc == 1 && Poll(n, s.a.sendDone)
    case PostA => s.a.pc == 2
    case PollRecvA(n) => s.a.pc == 3 && Poll(n, s.a.recvDone)
    case PostB => s.b.pc == 0 && s.b.iter < total
    case PollRecvB(n) => s.b.pc == 1 && Poll(n, s.b.recvDone)
    case SendB => s.b.pc == 2
    case PollSendB(n) => s.b.pc == 3 && Poll(n, s.b.sendDone)
    case SentA => s.a.sending > 0
    case SentB => s.b.sending > 0
    case ArriveA => s.ba > 0 && s.a.posted > 0
    case ArriveB => s.ab > 0 && s.b.posted > 0
  }

  function Apply(total: nat, s: Pair, step: Step): Pair
    requires Enabled(total, s, step)
  {
    var a, b := s.a, s.b;
    match step
    case SendA => s.(a := a.(pc := 1, sending := a.sending + 1), ab := s.ab + 1)
    case PollSendA(n) => s.(a := a.(pc := 2, sendDone := a.sendDone - n))
    case PostA => s.(a := a.(pc := 3, posted := a.posted + 1))
    case PollRecvA(n) => s.(a := a.(pc := 0, iter := a.iter + 1, recvDone := a.recvDone - n))
    case PostB => s.(b := b.(pc := 1, posted := b.posted + 1))
    case PollRecvB(n) => s.(b := b.(pc := 2, recvDone := b.recvDone - n))
    case SendB => s.(b := b.(pc := 3, sending := b.sending + 1), ba := s.ba + 1)
    case PollSendB(n) => s.(b := b.(pc := 0, iter := b.iter + 1, sendDone := b.sendDone - n))
    case SentA => s.(a := a.(sending := a.sending - 1, sendDone := a.sendDone + 1))
    case SentB => s.(b := b.(sending := b.sending - 1, sendDone := b.sendDone + 1))
    case ArriveA => s.(a := a.(posted := a.posted - 1, recvDone := a.recvDone + 1), ba := s.ba - 1)
    case ArriveB => s.(b := b.(posted := b.posted - 1, recvDone := b.recvDone + 1), ab := s.ab - 1)
  }

  function Init(): Pair {
    var t := Thread(0, 0, PREPOST, 0, 0, 0);
    Pair(t, t, 0, 0)
  }

  predicate Done(total: nat, s: Pair) {
    s.a.pc == 0 && s.b.pc == 0 && s.a.iter == total && s.b.iter == total
  }

  // Messages each side has sent, and received as its own loop counts them.
  function SentByA(s: Pair): nat { s.a.iter + if s.a.pc >= 1 then 1 else 0 }
  function SentByB(s: Pair): nat { s.b.iter + if s.b.pc == 3 then 1 else 0 }
  function TakenByB(s: Pair): nat { s.b.iter + if s.b.pc >= 2 then 1 else 0 }

  /** Lockstep: the counts chase each other around the loop. */
  predicate Lockstep(total: nat, s: Pair) {
    && s.a.pc <= 3 && s.b.pc <= 3 && s.a.iter <= total && s.b.iter <= total
    && (s.a.pc > 0 ==> s.a.iter < total) && (s.b.pc > 0 ==> s.b.iter < total)
    && s.a.iter <= SentByB(s) <= TakenByB(s) <= SentByA(s) <= s.a.iter + 1
    && s.ab + s.b.recvDone == SentByA(s) - TakenByB(s)
    && s.ba + s.a.recvDone == SentByB(s) - s.a.iter
    && s.a.sending + s.a.sendDone == (if s.a.pc == 1 then 1 else 0)
    && s.b.sending + s.b.sendDone == (if s.b.pc == 3 then 1 else 0)
    && s.a.posted + s.a.recvDone == PREPOST + (if s.a.pc == 3 then 1 else 0)
    && s.b.posted + s.b.recvDone == PREPOST + (if s.b.pc == 1 then 1 else 0)
  }

  predicate StepOfA(step: Step) { step.SendA? || step.PollSendA? || step.PostA? || step.PollRecvA? }
  predicate StepOfB(step: Step) { step.PostB? || step.PollRecvB? || step.SendB? || step.PollSendB? }

  lemma StepOfAKeeps(total: nat, s: Pair, step: Step)
    requires Lockstep(total, s) && Enabled(total, s, step) && StepOfA(step)
    ensures Lockstep(total, Apply(total, s, step))
  {
  }

  lemma StepOfBKeeps(total: nat, s: Pair, step: Step)
    requires Lockstep(total, s) && Enabled(total, s, step) && StepOfB(step)
    ensures Lockstep(total, Apply(total, s, step))
  {
  }

  lemma NetworkKeeps(total: nat, s: Pair, step: Step)
    requires Lockstep(total, s) && Enabled(total, s, step) && !StepOfA(step) && !StepOfB(step)
    ensures Lockstep(total, Apply(total, s, step))
  {
  }

  lemma StepKeepsLockstep(total: nat, s: Pair, step: Step)
    requires Lockstep(total, s) && Enabled(total, s, step)
    ensures Lockstep(total, Apply(total, s, step))
  {
    if StepOfA(step) {
      StepOfAKeeps(total, s, step);
    } else if StepOfB(step) {
      StepOfBKeeps(total, s, step);
    } else {
      NetworkKeeps(total, s, step);
    }
  }

  // ---- Runs ----

  predicate IsRun(total: nat, run: seq<Pair>, steps: seq<Step>) {
    && |run| == |steps| + 1 && run[0] == Init()
    && forall i | 0 <= i < |steps| :: Enabled(total, run[i], steps[i]) && run[i + 1] == Apply(total, run[i], steps[i])
  }

  lemma {:induction false} RunLockstep(total: nat, run: seq<Pair>, steps: seq<Step>, i: nat)
    requires IsRun(total, run, steps) && i < |run|
    ensures Lockstep(total, run[i])
  {
    if i > 0 {
      RunLockstep(total, run, steps, i - 1);
      StepKeepsLockstep(total, run[i - 1], steps[i - 1]);
    }
  }

  function PollSize(step: Step): nat {
    match step
    case PollSendA(n) => n
    case PollRecvA(n) => n
    case PollRecvB(n) => n
    case PollSendB(n) => n
    case _ => 1
  }

  /** In every reachable state: one message per direction at most, so a poll never swallows two; the
      receive queue within its limit; every message under way finds a posted receive. */
  lemma NothingSwallowed(total: nat, run: seq<Pair>, steps: seq<Step>, i: nat)
    requires IsRun(total, run, steps) && i < |run|
    ensures var s := run[i];
            && s.ab + s.b.recvDone <= 1 && s.ba + s.a.recvDone <= 1
            && (forall step | Enabled(total, s, step) :: PollSize(step) == 1)
            && PREPOST <= s.a.posted + s.a.recvDone <= PREPOST + 1 < QUEUE
            && PREPOST <= s.b.posted + s.b.recvDone <= PREPOST + 1 < QUEUE
            && s.a.posted > 0 && s.b.posted > 0
  {
    RunLockstep(total, run, steps, i);
  }

  /** Work left on one side: five for each statement to come, two for each send not completed. */
  function WorkOf(total: nat, t: Thread): int {
    5 * (4 * (total - t.iter) - t.pc) + 2 * t.sending
  }

  /** ... and two for each message under way. */
  function Work(total: nat, s: Pair): int {
    WorkOf(total, s.a) + WorkOf(total, s.b) + 2 * (s.ab + s.ba)
  }

  lemma WorkLeft(total: nat, s: Pair)
    requires Lockstep(total, s)
    ensures Work(total, s) >= 0
  {
  }

  lemma StepReducesWork(total: nat, s: Pair, step: Step)
    requires Lockstep(total, s) && Enabled(total, s, step)
    ensures Work(total, Apply(total, s, step)) < Work(total, s)
  {
    match step
    case SendA => case PollSendA(n) => case PostA => case PollRecvA(n) =>
    case PostB => case PollRecvB(n) => case SendB => case PollSendB(n) =>
    case SentA => case SentB => case ArriveA => case ArriveB =>
  }

  lemma RunReducesWork(total: nat, run: seq<Pair>, steps: seq<Step>, i: nat)
    requires IsRun(total, run, steps) && i < |steps|
    ensures 0 <= Work(total, run[i + 1]) < Work(total, run[i])
  {
    RunLockstep(total, run, steps, i);
    StepReducesWork(total, run[i], steps[i]);
    RunLockstep(total, run, steps, i + 1);
    WorkLeft(total, run[i + 1]);
  }

  lemma {:induction false} RunsAreShort(total: nat, run: seq<Pair>, steps: seq<Step>, i: nat)
    requires IsRun(total, run, steps) && i < |run|
    ensures 0 <= Work(total, run[i]) <= 40 * total - i
  {
    if i > 0 {
      RunsAreShort(total, run, steps, i - 1);
      RunReducesWork(total, run, steps, i - 1);
    }
  }

  /** A step that can be taken while the pair is not done. */
  function Ready(total: nat, s: Pair): Step {
    if s.a.sending > 0 then SentA
    else if s.b.sending > 0 then SentB
    else if s.ba > 0 then ArriveA
    else if s.ab > 0 then ArriveB
    else if s.a.pc == 0 && s.a.iter < total then SendA
    else if s.a.pc == 1 then PollSendA(1)
    else if s.a.pc == 2 then PostA
    else if s.a.pc == 3 && s.a.recvDone > 0 then PollRecvA(1)
    else if s.b.pc == 0 then PostB
    else if s.b.pc == 1 then PollRecvB(1)
    else if s.b.pc == 2 then SendB
    else PollSendB(1)
  }

  lemma NeverStuck(total: nat, s: Pair)
    requires Lockstep(total, s) && !Done(total, s)
    ensures Enabled(total, s, Ready(total, s))
  {
  }

  /** Every run stops after at most 40 steps per iteration, and one that cannot go on has finished
      all iterations on both sides with nothing left over. */
  lemma RunsFinish(total: nat, run: seq<Pair>, steps: seq<Step>)
    requires IsRun(total, run, steps)
    ensures |steps| <= 40 * total
    ensures var last := run[|steps|];
            (forall step :: !Enabled(total, last, step)) ==>
              && Done(total, last) && last.ab == last.ba == 0
              && last.a == last.b == Thread(0, total, PREPOST, 0, 0, 0)
  {
    var last := run[|steps|];
    RunsAreShort(total, run, steps, |steps|);
    RunLockstep(total, run, steps, |steps|);
    if !Done(total, last) {
      NeverStuck(total, last);
    }
  }
}

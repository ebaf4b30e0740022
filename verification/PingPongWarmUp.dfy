/** The reset between warm-up and measurement: exactly when it is safe. With prefilled work and at
    least one measured iteration a message of the first size can be on its way until after the warm-up
    of the second: the run below never delivers the last message towards the senders of group 0. */
module PingPongWarmUp {
  import opened PingPong
  import opened PingPongSafety
  import opened PingPongProgress
  import opened PingPongRuns

  /** The stage of the reset after the warm-up of the second message size. */
  const TARGET: nat := 12

  /** A receiver of group 0 has replied in the first measured loop. */
  predicate Replied(c: Config, s: Pair)
    requires c.Valid() && s.Shape(c)
  {
    exists p: nat | p < c.w :: Sent(c, Receiver, s.WorkerAt(c, Receiver, 0, p), 1) > 0
  }

  function KeptBack(c: Config, s: Pair): Hold
    requires c.Valid() && s.Shape(c)
  {
    if Replied(c, s) then Hold(1, 0) else NoHold()
  }

  /** From the first reply on there is a message on the wire to the senders of group 0, and once they
      are in a later phase one is carried over. */
  ghost predicate Withheld(c: Config, s: Pair)
    requires c.Valid()
  {
    && Inv(c, s) && NotPast(c, s, TARGET)
    && (Replied(c, s) ==> s.snd[0].wire > 0)
    && (Replied(c, s) && Phase(c, s, Sender) >= 2 ==> Carried(c, s, Sender, 0, 1))
  }

  /** A reply was made behind the barrier in front of the first measured loop. */
  lemma RepliedPhase(c: Config, s: Pair)
    requires c.Valid() && s.Shape(c) && BarrierOk(c, s) && c.sizes >= 2 && Replied(c, s)
    ensures Phase(c, s, Sender) >= 1
  {
    var p: nat :| p < c.w && Sent(c, Receiver, s.WorkerAt(c, Receiver, 0, p), 1) > 0;
    assert PointAt(c, 5).ProcBarrier?;
    assert s.StageAt(c, Receiver, 0, p) >= 6;
    assert !NotPast(c, s, 5);
    assert s.StageAt(c, Sender, 0, 0) >= 5;
  }

  lemma WithheldMayHold(c: Config, s: Pair)
    requires c.Valid() && Withheld(c, s) && c.sizes >= 2 && c.prefill > 0
    ensures MayHold(c, s, KeptBack(c, s))
  {
    assert Carried(c, s, Sender, 0, 0) && Carried(c, s, Receiver, 0, 0);
    MayHoldOne(c, s, Receiver, 0);
    if !Replied(c, s) {
      MayHoldOne(c, s, Sender, 0);
    } else {
      RepliedPhase(c, s);
      if Phase(c, s, Sender) == 1 {
        MayHoldOne(c, s, Sender, 1);
      } else {
        CarriedMayHold(c, s);
      }
    }
  }

  lemma CarriedMayHold(c: Config, s: Pair)
    requires c.Valid() && s.Shape(c) && Carried(c, s, Sender, 0, 1)
    ensures MayHoldAt(c, s, Sender, 1)
  {
    LargerFloor(c, s, Sender, 0, 1, Uncovered(c, Phase(c, s, Sender), 1));
  }

  // ---- A patient step keeps the message on the wire ----

  /** Only a receiver's send in phase 1 makes the first reply. */
  lemma FirstReply(c: Config, s: Pair, open: bool, step: Step)
    requires c.Valid() && s.Shape(c) && WorkersOk(c, s) && Enabled(c, s, open, step)
    ensures Apply(c, s, open, step).Shape(c)
    ensures Replied(c, s) ==> Replied(c, Apply(c, s, open, step))
    ensures Replied(c, Apply(c, s, open, step)) && !Replied(c, s) ==>
              && step.Send? && step.side.Receiver? && step.g == 0
              && s.StageAt(c, Receiver, 0, step.p) / 4 == 1
  {
    ApplyShape(c, s, open, step);
    var s' := Apply(c, s, open, step);
    if p: nat :| p < c.w && Sent(c, Receiver, s.WorkerAt(c, Receiver, 0, p), 1) > 0 {
      ReplyMoves(c, s, open, step, p);
      assert Sent(c, Receiver, s'.WorkerAt(c, Receiver, 0, p), 1) > 0;
    } else if p: nat :| p < c.w && Sent(c, Receiver, s'.WorkerAt(c, Receiver, 0, p), 1) > 0 {
      ReplyMoves(c, s, open, step, p);
    }
  }

  lemma ReplyMoves(c: Config, s: Pair, open: bool, step: Step, p: nat)
    requires c.Valid() && s.Shape(c) && WorkersOk(c, s) && Enabled(c, s, open, step) && p < c.w
    ensures Apply(c, s, open, step).Shape(c)
    ensures var was, now := Sent(c, Receiver, s.WorkerAt(c, Receiver, 0, p), 1),
                            Sent(c, Receiver, Apply(c, s, open, step).WorkerAt(c, Receiver, 0, p), 1);
            && was <= now
            && (was < now ==> && step.Send? && step.side.Receiver? && step.g == 0
                              && s.StageAt(c, Receiver, 0, step.p) / 4 == 1)
  {
    if IsWorkerStep(step) && step.side.Receiver? && step.g == 0 && step.p == p {
      ApplyShape(c, s, open, step);
      WorkerCounts(c, s, open, step, 1);
      assert Apply(c, s, open, step).WorkerAt(c, Receiver, 0, p) == LocalStep(c, s.rcv[0], step).workers[p];
    } else {
      OtherWorkerKept(c, s, open, step, Receiver, 0, p);
    }
  }

  lemma WireKept(c: Config, s: Pair, open: bool, step: Step)
    requires c.Valid() && s.Shape(c) && WorkersOk(c, s) && Enabled(c, s, open, step)
    requires (Replied(c, s) ==> s.snd[0].wire > 0) && Patient(s, KeptBack(c, s), step)
    ensures Apply(c, s, open, step).Shape(c)
    ensures Replied(c, Apply(c, s, open, step)) ==> Apply(c, s, open, step).snd[0].wire > 0
  {
    FirstReply(c, s, open, step);
    WireMoves(c, s, open, step);
  }

  lemma WireMoves(c: Config, s: Pair, open: bool, step: Step)
    requires c.Valid() && s.Shape(c) && Enabled(c, s, open, step)
    ensures Apply(c, s, open, step).Shape(c)
    ensures Apply(c, s, open, step).snd[0].wire
            == s.snd[0].wire + (if step.Send? && step.side.Receiver? && step.g == 0 then 1 else 0)
                             - (if step.Arrive? && step.side.Sender? && step.g == 0 then 1 else 0)
  {
    ApplyShape(c, s, open, step);
  }

  lemma LargerFloor(c: Config, s: Pair, side: Side, g: nat, a: nat, b: nat)
    requires c.Valid() && s.Shape(c) && g < c.rx && Carried(c, s, side, g, a) && b <= a
    ensures Carried(c, s, side, g, b)
  {
    var x: Excess :| x.wire >= a && HalfAtOk(c, s, side, g, x);
  }

  /** Over the senders' reset the message on the wire is carried over. */
  lemma ResetKeepsIt(c: Config, s: Pair, open: bool, step: Step)
    requires c.Valid() && Withheld(c, s) && Enabled(c, s, open, step) && IsLeadReset(step) && step.side.Sender?
    ensures Apply(c, s, open, step).Shape(c)
    ensures Replied(c, Apply(c, s, open, step)) ==> Carried(c, Apply(c, s, open, step), Sender, 0, 1)
  {
    FirstReply(c, s, open, step);
    if Replied(c, Apply(c, s, open, step)) {
      assert Carried(c, s, Sender, 0, 0);
      LeadResetCarries(c, s, open, step, 0);
      LargerFloor(c, Apply(c, s, open, step), Sender, 0, InFlight(s.snd[0]), 1);
    }
  }

  /** A late reply is carried over as well. */
  lemma LateReplyCarried(c: Config, s: Pair, open: bool, step: Step)
    requires c.Valid() && Inv(c, s) && Enabled(c, s, open, step) && LateSend(c, s, step)
    requires step.side.Receiver? && step.g == 0
    ensures Apply(c, s, open, step).Shape(c) && Carried(c, Apply(c, s, open, step), Sender, 0, 1)
  {
    assert Carried(c, s, Sender, 0, 0);
    var x: Excess :| HalfAtOk(c, s, Sender, 0, x);
    HalfKept(c, s, open, step, Sender, 0, x);
  }

  lemma CarriedStays(c: Config, s: Pair, open: bool, step: Step)
    requires c.Valid() && Withheld(c, s) && Enabled(c, s, open, step)
    requires !(IsLeadReset(step) && step.side.Sender?)
    ensures Apply(c, s, open, step).Shape(c)
    ensures Replied(c, Apply(c, s, open, step)) && Phase(c, Apply(c, s, open, step), Sender) >= 2 ==>
              Carried(c, Apply(c, s, open, step), Sender, 0, 1)
  {
    FirstReply(c, s, open, step);
    PhaseKept(c, s, open, step, Sender);
    if Replied(c, Apply(c, s, open, step)) && Phase(c, Apply(c, s, open, step), Sender) >= 2 {
      if Replied(c, s) {
        CarriedKept(c, s, open, step, Sender, 0, 1);
      } else {
        LateReplyCarried(c, s, open, step);
      }
    }
  }

  lemma StaysBelow(c: Config, s: Pair, open: bool, step: Step)
    requires c.Valid() && s.Shape(c) && NotPast(c, s, TARGET) && Enabled(c, s, open, step)
    requires IsWorkerStep(step) ==> s.StageAt(c, step.side, step.g, step.p) < TARGET
    ensures Apply(c, s, open, step).Shape(c) && NotPast(c, Apply(c, s, open, step), TARGET)
  {
    SideStaysBehind(c, s, open, step, Sender, TARGET);
    SideStaysBehind(c, s, open, step, Receiver, TARGET);
  }

  lemma StepKeepsWithheld(c: Config, s: Pair, open: bool, step: Step)
    requires c.Valid() && Withheld(c, s) && Enabled(c, s, open, step) && Patient(s, KeptBack(c, s), step)
    requires IsWorkerStep(step) ==> s.StageAt(c, step.side, step.g, step.p) < TARGET
    ensures Withheld(c, Apply(c, s, open, step))
  {
    StepPreservesInv(c, s, open, step);
    StaysBelow(c, s, open, step);
    WireKept(c, s, open, step);
    if IsLeadReset(step) && step.side.Sender? {
      ResetKeepsIt(c, s, open, step);
    } else {
      CarriedStays(c, s, open, step);
    }
  }

  // ---- The run ----

  ghost predicate JobWithheld(c: Config, job: seq<Pair>)
    requires c.Valid()
  {
    |job| > 0 && JobInv(c, job) && JobShape(c, job) && Withheld(c, job[0])
  }

  lemma JobStepWithheld(c: Config, job: seq<Pair>, i: nat, step: Step)
    requires c.Valid() && JobWithheld(c, job) && JobEnabled(c, job, i, step)
    requires i == 0 ==> Patient(job[0], KeptBack(c, job[0]), step)
    requires IsWorkerStep(step) ==> job[i].StageAt(c, step.side, step.g, step.p) < TARGET
    ensures JobWithheld(c, JobApply(c, job, i, step))
  {
    JobStepInv(c, job, i, step);
    if i == 0 {
      StepKeepsWithheld(c, job[0], RestReached(c, job, 0, StepStage(c, job[0], step)), step);
    }
  }

  lemma PatientStep(c: Config, job: seq<Pair>) returns (next: seq<Pair>)
    requires c.Valid() && JobWithheld(c, job) && !JobReached(c, job, TARGET) && c.sizes >= 2 && c.prefill > 0
    ensures JobNext(c, job, next) && JobMeasure(c, next) < JobMeasure(c, job) && JobWithheld(c, next)
  {
    WithheldMayHold(c, job[0]);
    var i, step := JobCanStepBelow(c, job, TARGET, KeptBack(c, job[0]));
    JobStepWithheld(c, job, i, step);
    JobStepDecreases(c, job, i, step);
    next := JobApply(c, job, i, step);
  }

  lemma {:induction false} PatientRun(c: Config, n: nat, run: seq<seq<Pair>>, last: seq<Pair>)
    returns (longer: seq<seq<Pair>>)
    requires c.Valid() && IsRun(c, n, run) && last == run[|run| - 1] && JobWithheld(c, last)
    requires c.sizes >= 2 && c.prefill > 0
    ensures IsRun(c, n, longer) && JobWithheld(c, longer[|longer| - 1]) && JobReached(c, longer[|longer| - 1], TARGET)
    decreases JobMeasure(c, last)
  {
    if JobReached(c, last, TARGET) {
      longer := run;
    } else {
      var next := PatientStep(c, last);
      ExtendRun(c, n, run, next);
      longer := PatientRun(c, n, run + [next], next);
    }
  }

  lemma InitWithheld(c: Config, n: nat)
    requires c.Valid() && n > 0
    ensures JobWithheld(c, InitJob(c, n))
  {
    InitInv(c);
    var s := InitPair(c);
    assert forall p: nat | p < c.w :: s.WorkerAt(c, Receiver, 0, p).stage == 0;
  }

  /** At the target everybody has replied, so the message is there. */
  lemma DirtyAtTarget(c: Config, s: Pair)
    requires c.Valid() && Withheld(c, s) && s.Reached(c, TARGET) && c.sizes >= 2 && c.total > 0
    ensures s.StageAt(c, Sender, 0, 0) == TARGET && AtReset(c, s, Sender) && !Quiescent(c, s, Sender)
  {
    assert s.StageAt(c, Sender, 0, 0) >= TARGET;
    assert s.StageAt(c, Receiver, 0, 0) >= TARGET;
    assert Sent(c, Receiver, s.WorkerAt(c, Receiver, 0, 0), 1) > 0;
    assert !HalfQuiet(c, s.snd[0], 0);
  }

  /** With prefilled work, a measured iteration and a second size there is a run whose reset after the
      second warm-up is not safe. */
  lemma DirtyWarmUpResetExists(c: Config, n: nat) returns (run: seq<seq<Pair>>)
    requires c.Valid() && c.prefill > 0 && c.total > 0 && c.sizes >= 2 && n > 0
    ensures IsRun(c, n, run)
    ensures var s := run[|run| - 1];
            && |s| > 0 && s[0].Shape(c) && AtReset(c, s[0], Sender)
            && s[0].StageAt(c, Sender, 0, 0) == TARGET && !Quiescent(c, s[0], Sender)
  {
    InitWithheld(c, n);
    run := PatientRun(c, n, [InitJob(c, n)], InitJob(c, n));
    var s := run[|run| - 1];
    assert s[0].Reached(c, TARGET);
    DirtyAtTarget(c, s[0]);
  }

  /** Every reset after a warm-up, in every state of every run, finds its process quiescent. */
  ghost predicate WarmUpResetsQuiescent(c: Config, n: nat)
    requires c.Valid()
  {
    forall run: seq<seq<Pair>>, k: nat, i: nat, side: Side |
      && IsRun(c, n, run) && k < |run| && i < |run[k]| && run[k][i].Shape(c)
      && AtReset(c, run[k][i], side) && run[k][i].StageAt(c, side, 0, 0) % 8 == 4 ::
        Quiescent(c, run[k][i], side)
  }

  /** Exactly when the resets after warm-ups are safe: without prefilled work, with at most one message
      size, or if the measured loops have no iterations. */
  lemma WarmUpResetExact(c: Config, n: nat)
    requires c.Valid() && n > 0
    ensures WarmUpResetsQuiescent(c, n) <==> c.prefill == 0 || c.sizes <= 1 || c.total == 0
  {
    if c.prefill == 0 || c.sizes <= 1 || c.total == 0 {
      forall run: seq<seq<Pair>>, k: nat, i: nat, side: Side |
        && IsRun(c, n, run) && k < |run| && i < |run[k]| && run[k][i].Shape(c)
        && AtReset(c, run[k][i], side) && run[k][i].StageAt(c, side, 0, 0) % 8 == 4
        ensures Quiescent(c, run[k][i], side)
      {
        ResetSafety(c, n, run, k, i, side);
      }
    } else {
      var run := DirtyWarmUpResetExists(c, n);
      var k := |run| - 1;
      assert AtReset(c, run[k][0], Sender) && !Quiescent(c, run[k][0], Sender);
    }
  }
}

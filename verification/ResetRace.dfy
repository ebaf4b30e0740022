/** reset_counters against a progress thread that is dispatching. The reset stores the counters one by
    one and then the cursor; a dispatch loads the cursor, loads it again to advance it, stores it, and
    increments a counter. However the two interleave, the result is that of a reset of the model: the
    dispatches come first, then one step that leaves what `Race` describes. Progress threads share no
    counter and no cursor, so one of them at a time is enough; workers of the process stand still. */
module ResetRace {
  import opened Options
  import opened RoundRobin
  import opened PingPong
  import opened PingPongSafety

  /** The cursor is to be advanced: not yet loaded for that, or loaded and not yet stored. */
  datatype Pending = Nothing | ToLoad | ToStore(next: nat)

  /** A progress thread with single loads and stores, and how far the reset is: `stored` counters, and
      the cursor after all of them. */
  datatype Fine = Fine(h: Half, pending: Pending, stored: nat)

  datatype FineStep =
    | Load             // worker_idx = next_worker_idx
    | LoadAgain        // incrementWorkerIdx reads the cursor
    | Store            // and writes it
    | Add              // ++syncs[worker_idx].sync
    | Elsewhere(h: Half) // messages come in, completions are polled, receives reposted
    | ClearCounter     // the reset's next counter
    | ClearCursor      // the reset's last store

  /** Two states of a half that differ at most in its messages and receives. */
  predicate SameCounters(h: Half, h': Half) {
    h' == h.(wire := h'.wire, cq := h'.cq, polled := h'.polled, spent := h'.spent, posted := h'.posted)
  }

  predicate FineEnabled(c: Config, f: Fine, st: FineStep)
    requires c.Valid() && HalfShape(c, f.h)
  {
    match st
    case Load => f.pending.Nothing? && f.h.held.None? && f.h.polled > 0
    case LoadAgain => f.pending.ToLoad?
    case Store => f.pending.ToStore?
    case Add => f.pending.Nothing? && f.h.held.Some? && f.h.held.value / c.rx < c.w
    case Elsewhere(h) => SameCounters(f.h, h)
    case ClearCounter => f.stored < c.w
    case ClearCursor => f.stored == c.w
  }

  function FineApply(c: Config, g: nat, count: nat, f: Fine, st: FineStep): Fine
    requires c.Valid() && HalfShape(c, f.h) && FineEnabled(c, f, st)
  {
    match st
    case Load => Fine(f.h.(polled := f.h.polled - 1, held := Some(f.h.cursor), picks := f.h.picks + 1), ToLoad, f.stored)
    case LoadAgain => f.(pending := ToStore(IncrementWorkerIdx(c.Tx(), c.rx, g, f.h.cursor)))
    case Store => Fine(f.h.(cursor := f.pending.next), Nothing, f.stored)
    case Add => f.(h := LocalStep(c, f.h, Bump(Sender, g)))
    case Elsewhere(h) => f.(h := h)
    case ClearCounter => Fine(f.h.(syncs := f.h.syncs[f.stored := count]), f.pending, f.stored + 1)
    case ClearCursor => Fine(f.h.(cursor := g, picks := 0, bumps := 0), f.pending, f.stored + 1)
  }

  // ---- What the model sees ----

  /** Where the cursor will be when a pending increment is through. */
  function Coming(c: Config, g: nat, f: Fine): nat {
    match f.pending
    case Nothing => f.h.cursor
    case ToLoad => IncrementWorkerIdx(c.Tx(), c.rx, g, f.h.cursor)
    case ToStore(next) => next
  }

  predicate IsPosition(c: Config, g: nat, id: nat) {
    exists p: nat | p < c.w :: id == WorkerId(c.rx, g, p)
  }

  /** All ids are ids of workers of the group. */
  predicate InGroup(c: Config, g: nat, f: Fine) {
    && IsPosition(c, g, f.h.cursor) && HeldOk(c, f.h, g)
    && (f.pending.ToStore? ==> IsPosition(c, g, f.pending.next))
    && (f.pending != Nothing ==> f.h.held.Some?)
  }

  /** Counter p: as in the model while the reset has not stored it, then the count and those increments
      that came later. */
  predicate CounterMatches(c: Config, count: nat, f: Fine, m: Half, p: nat)
    requires HalfShape(c, f.h) && HalfShape(c, m) && p < c.w
  {
    if p >= f.stored then f.h.syncs[p] == m.syncs[p]
    else count <= f.h.syncs[p] <= count + m.syncs[p] && (m.bumps == 0 ==> f.h.syncs[p] == count)
  }

  /** The model's half before the reset: same but for the counters stored and the cursor on its way. */
  predicate Matches(c: Config, g: nat, count: nat, f: Fine, m: Half) {
    && HalfShape(c, f.h) && HalfShape(c, m) && InGroup(c, g, f) && f.stored <= c.w
    && f.h == m.(syncs := f.h.syncs, cursor := f.h.cursor) && m.cursor == Coming(c, g, f)
    && forall p: nat | p < c.w :: CounterMatches(c, count, f, m, p)
  }

  /** A step of the model's progress thread, or none. */
  predicate ModelMove(c: Config, g: nat, m: Half, m': Half)
    requires c.Valid() && HalfShape(c, m)
  {
    || m' == m
    || SameCounters(m, m')
    || (m.polled > 0 && m.held.None? && m' == LocalStep(c, m, Pick(Sender, g)))
    || (m.held.Some? && m.held.value / c.rx < c.w && m' == LocalStep(c, m, Bump(Sender, g)))
  }

  lemma NextIsPosition(c: Config, g: nat, id: nat)
    requires c.Valid() && g < c.rx && IsPosition(c, g, id)
    ensures IsPosition(c, g, IncrementWorkerIdx(c.Tx(), c.rx, g, id))
  {
    var p: nat :| p < c.w && id == WorkerId(c.rx, g, p);
    Small(p, c.w);
    IncrementIsNextPosition(c.w, c.rx, g, p);
    assert (p + 1) % c.w < c.w;
  }

  /** The step of the model that a fine step stands for. A dispatch counts from its first load. */
  function Moved(c: Config, g: nat, m: Half, st: FineStep): Half
    requires c.Valid() && HalfShape(c, m)
    requires st.Load? ==> m.polled > 0
    requires st.Add? ==> m.held.Some? && m.held.value / c.rx < c.w
  {
    match st
    case Load => LocalStep(c, m, Pick(Sender, g))
    case Add => LocalStep(c, m, Bump(Sender, g))
    case Elsewhere(h) => m.(wire := h.wire, cq := h.cq, polled := h.polled, spent := h.spent, posted := h.posted)
    case _ => m
  }

  lemma StaysInGroup(c: Config, g: nat, count: nat, f: Fine, st: FineStep)
    requires c.Valid() && g < c.rx && HalfShape(c, f.h) && InGroup(c, g, f) && FineEnabled(c, f, st) && !st.ClearCursor?
    ensures HalfShape(c, FineApply(c, g, count, f, st).h) && InGroup(c, g, FineApply(c, g, count, f, st))
  {
    NextIsPosition(c, g, f.h.cursor);
  }

  lemma CounterStillMatches(c: Config, g: nat, count: nat, f: Fine, m: Half, st: FineStep, p: nat)
    requires c.Valid() && g < c.rx && p < c.w && HalfShape(c, f.h) && HalfShape(c, m) && CounterMatches(c, count, f, m, p)
    requires f.h.held == m.held && f.h.polled == m.polled && FineEnabled(c, f, st) && !st.ClearCursor?
    ensures HalfShape(c, FineApply(c, g, count, f, st).h) && HalfShape(c, Moved(c, g, m, st))
    ensures CounterMatches(c, count, FineApply(c, g, count, f, st), Moved(c, g, m, st), p)
  {
  }

  /** Every load and store before the last one of the reset is a step of the model or nothing. */
  lemma FineStepMatches(c: Config, g: nat, count: nat, f: Fine, m: Half, st: FineStep)
    requires c.Valid() && g < c.rx && Matches(c, g, count, f, m) && FineEnabled(c, f, st) && !st.ClearCursor?
    ensures ModelMove(c, g, m, Moved(c, g, m, st))
    ensures Matches(c, g, count, FineApply(c, g, count, f, st), Moved(c, g, m, st))
  {
    StaysInGroup(c, g, count, f, st);
    forall p: nat | p < c.w ensures CounterMatches(c, count, FineApply(c, g, count, f, st), Moved(c, g, m, st), p) {
      CounterStillMatches(c, g, count, f, m, st, p);
    }
  }

  // ---- The end of the reset ----

  function PositionOf(c: Config, id: nat): nat
    requires c.Valid()
  {
    id / c.rx
  }

  /** What is left of the dispatches at the last store of the reset. */
  function Left(c: Config, g: nat, count: nat, f: Fine): Race
    requires c.Valid() && HalfShape(c, f.h) && FineEnabled(c, f, ClearCursor)
  {
    var f' := FineApply(c, g, count, f, ClearCursor);
    Race(seq(c.w, p requires 0 <= p < c.w => if f.h.syncs[p] >= count then f.h.syncs[p] - count else 0),
         PositionOf(c, Coming(c, g, f')))
  }

  lemma HomeIsPosition(c: Config, g: nat)
    requires c.Valid() && g < c.rx
    ensures IsPosition(c, g, g) && PositionOf(c, g) == 0
  {
    assert WorkerId(c.rx, g, 0) == g;
    WorkerIdDecodes(c.rx, g, 0);
  }

  lemma PositionDecodes(c: Config, g: nat, id: nat)
    requires c.Valid() && g < c.rx && IsPosition(c, g, id)
    ensures PositionOf(c, id) < c.w && WorkerId(c.rx, g, PositionOf(c, id)) == id
  {
    var p: nat :| p < c.w && id == WorkerId(c.rx, g, p);
    WorkerIdDecodes(c.rx, g, p);
  }

  lemma LeftIsRace(c: Config, g: nat, count: nat, f: Fine, m: Half)
    requires c.Valid() && g < c.rx && Matches(c, g, count, f, m) && FineEnabled(c, f, ClearCursor)
    ensures RaceOk(c, m, Left(c, g, count, f))
    ensures WorkerId(c.rx, g, Left(c, g, count, f).start) == Coming(c, g, FineApply(c, g, count, f, ClearCursor))
  {
    var r := Left(c, g, count, f);
    HomeIsPosition(c, g);
    NextIsPosition(c, g, g);
    PositionDecodes(c, g, Coming(c, g, FineApply(c, g, count, f, ClearCursor)));
    forall p: nat | p < c.w ensures r.kept[p] <= m.syncs[p] && (m.bumps == 0 ==> r.kept[p] == 0) {
      assert CounterMatches(c, count, f, m, p);
    }
    if Undisturbed(c, m) {
      assert r.kept == NoRace(c).kept;
    }
  }

  /** The last store of the reset is the model's reset with that race. */
  lemma LastStoreIsReset(c: Config, g: nat, count: nat, f: Fine, m: Half)
    requires c.Valid() && g < c.rx && Matches(c, g, count, f, m) && FineEnabled(c, f, ClearCursor)
    ensures RaceOk(c, m, Left(c, g, count, f))
    ensures var f', m' := FineApply(c, g, count, f, ClearCursor), ResetHalf(c, m, g, count, Left(c, g, count, f));
            f'.h == m'.(cursor := f'.h.cursor) && m'.cursor == Coming(c, g, f')
  {
    LeftIsRace(c, g, count, f, m);
    var f', m' := FineApply(c, g, count, f, ClearCursor), ResetHalf(c, m, g, count, Left(c, g, count, f));
    forall p: nat | p < c.w ensures f'.h.syncs[p] == m'.syncs[p] {
      assert CounterMatches(c, count, f, m, p);
    }
    assert f'.h.syncs == m'.syncs;
  }

  // ---- Whole resets ----

  /** A run of single loads and stores from the beginning of a reset to just before its last store. */
  ghost predicate IsFineRun(c: Config, g: nat, count: nat, run: seq<Fine>)
    requires c.Valid()
  {
    && |run| > 0 && HalfShape(c, run[0].h) && InGroup(c, g, run[0]) && run[0].stored == 0
    && (forall k | 0 <= k < |run| - 1 :: FineNext(c, g, count, run[k], run[k + 1]))
  }

  ghost predicate FineNext(c: Config, g: nat, count: nat, f: Fine, f': Fine)
    requires c.Valid()
  {
    HalfShape(c, f.h) && exists st :: FineEnabled(c, f, st) && !st.ClearCursor? && f' == FineApply(c, g, count, f, st)
  }

  ghost predicate IsModelRun(c: Config, g: nat, ms: seq<Half>)
    requires c.Valid()
  {
    |ms| > 0 && forall k | 0 <= k < |ms| - 1 :: HalfShape(c, ms[k]) && ModelMove(c, g, ms[k], ms[k + 1])
  }

  lemma {:induction false} FineRunMatches(c: Config, g: nat, count: nat, run: seq<Fine>, k: nat) returns (ms: seq<Half>)
    requires c.Valid() && g < c.rx && IsFineRun(c, g, count, run) && k < |run|
    ensures IsModelRun(c, g, ms) && ms[0] == run[0].h.(cursor := Coming(c, g, run[0]))
    ensures Matches(c, g, count, run[k], ms[|ms| - 1])
  {
    if k == 0 {
      ms := [run[0].h.(cursor := Coming(c, g, run[0]))];
    } else {
      var before := FineRunMatches(c, g, count, run, k - 1);
      assert FineNext(c, g, count, run[k - 1], run[k - 1 + 1]);
      var st :| FineEnabled(c, run[k - 1], st) && !st.ClearCursor? && run[k] == FineApply(c, g, count, run[k - 1], st);
      var m := before[|before| - 1];
      FineStepMatches(c, g, count, run[k - 1], m, st);
      ms := before + [Moved(c, g, m, st)];
      forall i | 0 <= i < |ms| - 1 ensures HalfShape(c, ms[i]) && ModelMove(c, g, ms[i], ms[i + 1]) {
        if i < |before| - 1 {
          assert HalfShape(c, before[i]) && ModelMove(c, g, before[i], before[i + 1]);
        }
      }
    }
  }

  /** However the stores of a reset interleave with dispatches, the outcome is that of the model: steps
      of the progress thread, then one reset with a race the model allows. */
  lemma ResetIsAtomic(c: Config, g: nat, count: nat, run: seq<Fine>) returns (ms: seq<Half>, r: Race)
    requires c.Valid() && g < c.rx && IsFineRun(c, g, count, run) && run[|run| - 1].stored == c.w
    ensures HalfShape(c, run[|run| - 1].h) && IsModelRun(c, g, ms) && ms[0] == run[0].h.(cursor := Coming(c, g, run[0]))
    ensures HalfShape(c, ms[|ms| - 1]) && RaceOk(c, ms[|ms| - 1], r)
    ensures var f', m' := FineApply(c, g, count, run[|run| - 1], ClearCursor), ResetHalf(c, ms[|ms| - 1], g, count, r);
            f'.h == m'.(cursor := f'.h.cursor) && m'.cursor == Coming(c, g, f')
  {
    ms := FineRunMatches(c, g, count, run, |run| - 1);
    r := Left(c, g, count, run[|run| - 1]);
    LastStoreIsReset(c, g, count, run[|run| - 1], ms[|ms| - 1]);
  }
}

/** Token conservation and exact completion of the ping-pong protocol. */
module PingPongTokens {
  import opened Options
  import opened Sums
  import opened RoundRobin
  import opened PingPong
  import opened PingPongSafety

  function TakenAll(c: Config, side: Side, ws: seq<Worker>, q: nat): (r: seq<nat>)
    ensures |r| == |ws|
  {
    seq(|ws|, i requires 0 <= i < |ws| => Taken(c, side, ws[i], q))
  }

  /** One for every worker in the middle of an iteration of phase q: a sender that has sent and
      waits, or a receiver that has taken a message and not yet replied. */
  function MidAll(c: Config, ws: seq<Worker>, q: nat): (r: seq<nat>)
    ensures |r| == |ws|
  {
    seq(|ws|, i requires 0 <= i < |ws| => if ws[i].stage == c.LoopStage(q) && ws[i].mid then 1 else 0)
  }

  /** Messages and counter units on the way to or at the workers of one half. */
  function TokensAt(h: Half): nat {
    InFlight(h) + HeldCount(h) + Sum(h.syncs)
  }

  function HeldAll(c: Config, h: Half, g: nat): (r: seq<nat>)
    ensures |r| == c.w
  {
    seq(c.w, p requires 0 <= p => HeldFor(c, h, g, p))
  }

  /** A picked worker is one worker of the group. */
  lemma HeldOnce(c: Config, h: Half, g: nat)
    requires c.Valid() && g < c.rx && HeldOk(c, h, g)
    ensures Sum(HeldAll(c, h, g)) == HeldCount(h)
  {
    var none := h.(held := None);
    SumAtMost(HeldAll(c, none, g), 0);
    if h.held.Some? {
      var p: nat :| p < c.w && h.held.value == WorkerId(c.rx, g, p);
      forall i: nat | i < c.w ensures HeldFor(c, h, g, i) == if i == p then 1 else 0 {
        WorkerIdDecodes(c.rx, g, i);
        WorkerIdDecodes(c.rx, g, p);
      }
      assert HeldAll(c, h, g) == HeldAll(c, none, g)[p := 1];
      SumUpdate(HeldAll(c, none, g), p, 1);
    } else {
      assert HeldAll(c, h, g) == HeldAll(c, none, g);
    }
  }

  function Constant(n: nat, x: nat): (r: seq<nat>)
    ensures |r| == n
  {
    seq(n, _ => x)
  }

  lemma ConstantSum(n: nat, x: nat)
    ensures Sum(Constant(n, x)) == n * x
  {
    SumAtLeast(Constant(n, x), x);
    SumAtMost(Constant(n, x), x);
  }

  function Plus(xs: seq<nat>, ys: seq<nat>): (r: seq<nat>)
    requires |xs| == |ys|
    ensures |r| == |xs|
  {
    seq(|xs|, i requires 0 <= i < |xs| => xs[i] + ys[i])
  }

  lemma PlusSum(xs: seq<nat>, ys: seq<nat>)
    requires |xs| == |ys|
    ensures Sum(Plus(xs, ys)) == Sum(xs) + Sum(ys)
  {
    SumPlus(xs, ys, Plus(xs, ys));
  }

  /** Everything a half carries over. */
  function Total(x: Excess): nat {
    x.wire + Sum(x.counts)
  }

  lemma NothingInTotal(c: Config)
    ensures Total(NoExcess(c)) == 0
  {
    SumAtMost(NoExcess(c).counts, 0);
  }

  /** The books of one half: what was sent to it, prefilled and carried over is what its workers took
      plus the tokens it still holds. */
  lemma HalfTokens(c: Config, h: Half, peer: seq<Worker>, side: Side, g: nat, q: nat, x: Excess)
    requires c.Valid() && g < c.rx && HalfShape(c, h) && |x.counts| == c.w && HalfOk(c, h, peer, side, g, q, x)
    ensures TokensAt(h) + Sum(TakenAll(c, side, h.workers, q))
            == c.w * c.Prefill(q) + Sum(SentAll(c, side.Peer(), peer, q)) + Total(x)
  {
    var taken, held := TakenAll(c, side, h.workers, q), HeldAll(c, h, g);
    var pre, share := Constant(c.w, c.Prefill(q)), SharesFrom(x.start, h.picks, c.w);
    PlusSum(Plus(h.syncs, held), taken);
    PlusSum(h.syncs, held);
    PlusSum(Plus(pre, share), x.counts);
    PlusSum(pre, share);
    forall p | 0 <= p < c.w ensures Plus(Plus(h.syncs, held), taken)[p] == Plus(Plus(pre, share), x.counts)[p] {
      assert CounterOk(c, h, side, g, p, q, x);
    }
    assert Plus(Plus(h.syncs, held), taken) == Plus(Plus(pre, share), x.counts);
    HeldOnce(c, h, g);
    ConstantSum(c.w, c.Prefill(q));
    SharesFromSum(x.start, h.picks, c.w);
  }

  /** A sender has sent one more than it took exactly while it waits, a receiver has taken one
      more than it sent exactly while it owes a reply. */
  lemma MidBalance(c: Config, side: Side, ws: seq<Worker>, q: nat)
    ensures side.Sender? ==>
              Sum(SentAll(c, side, ws, q)) == Sum(TakenAll(c, side, ws, q)) + Sum(MidAll(c, ws, q))
    ensures side.Receiver? ==>
              Sum(TakenAll(c, side, ws, q)) == Sum(SentAll(c, side, ws, q)) + Sum(MidAll(c, ws, q))
  {
    if side.Sender? {
      SumPlus(TakenAll(c, side, ws, q), MidAll(c, ws, q), SentAll(c, side, ws, q));
    } else {
      SumPlus(SentAll(c, side, ws, q), MidAll(c, ws, q), TakenAll(c, side, ws, q));
    }
  }

  /** Token conservation, per group: everything on the wire, undispatched, in counters, or taken by
      a receiver that has not replied amounts to the prefilled work, what was carried over, and the
      waiting senders. */
  lemma GroupTokens(c: Config, s: Pair, g: nat, x: Excess, y: Excess)
    requires c.Valid() && s.Shape(c) && g < c.rx && Phase(c, s, Sender) == Phase(c, s, Receiver)
    requires HalfAtOk(c, s, Sender, g, x) && HalfAtOk(c, s, Receiver, g, y)
    ensures var q := Phase(c, s, Sender);
            TokensAt(s.snd[g]) + TokensAt(s.rcv[g]) + Sum(MidAll(c, s.rcv[g].workers, q))
            == 2 * (c.w * c.Prefill(q)) + Total(x) + Total(y) + Sum(MidAll(c, s.snd[g].workers, q))
  {
    var q := Phase(c, s, Sender);
    HalfTokens(c, s.snd[g], s.rcv[g].workers, Sender, g, q, x);
    HalfTokens(c, s.rcv[g], s.snd[g].workers, Receiver, g, q, y);
    MidBalance(c, Sender, s.snd[g].workers, q);
    MidBalance(c, Receiver, s.rcv[g].workers, q);
  }

  /** The same while nothing is carried over. */
  lemma TokenConservation(c: Config, s: Pair, g: nat)
    requires c.Valid() && Inv(c, s) && InScope(c, s) && g < c.rx
    requires Phase(c, s, Sender) == Phase(c, s, Receiver)
    ensures var q := Phase(c, s, Sender);
            TokensAt(s.snd[g]) + TokensAt(s.rcv[g]) + Sum(MidAll(c, s.rcv[g].workers, q))
            == 2 * (c.w * c.Prefill(q)) + Sum(MidAll(c, s.snd[g].workers, q))
  {
    assert HalfAtOk(c, s, Sender, g, NoExcess(c)) && HalfAtOk(c, s, Receiver, g, NoExcess(c));
    NothingInTotal(c);
    GroupTokens(c, s, g, NoExcess(c), NoExcess(c));
  }

  // ---- Exact completion ----

  /** When both processes are through the loop of phase q and everything is delivered, each worker
      was dispatched exactly Iters(q) messages and its share of those carried over; its counter shows
      exactly the prefill and that share, and the cursor stands as far from where it started as they
      took it. */
  lemma CompletionWith(c: Config, s: Pair, side: Side, g: nat, p: nat, x: Excess)
    requires c.Valid() && s.Shape(c) && g < c.rx && p < c.w && HalfAtOk(c, s, side, g, x)
    requires s.Reached(c, c.LoopStage(Phase(c, s, side)) + 1)
    requires InFlight(s.Of(side)[g]) == 0 && s.Of(side)[g].held.None?
    ensures var q, h := Phase(c, s, side), s.Of(side)[g];
            && h.picks == c.w * c.Iters(q) + x.wire
            && ShareFrom(x.start, h.picks, c.w, p) == c.Iters(q) + ShareFrom(x.start, x.wire, c.w, p)
            && h.syncs[p] == c.Prefill(q) + ShareFrom(x.start, x.wire, c.w, p) + x.counts[p]
            && h.cursor == WorkerId(c.rx, g, (x.start + x.wire) % c.w)
  {
    var q, h := Phase(c, s, side), s.Of(side)[g];
    var peer := s.Of(side.Peer())[g].workers;
    forall i: nat | i < c.w
      ensures Sent(c, side.Peer(), peer[i], q) == c.Iters(q) && Taken(c, side, h.workers[i], q) == c.Iters(q)
    {
      assert s.StageAt(c, side.Peer(), g, i) >= c.LoopStage(q) + 1;
      assert s.StageAt(c, side, g, i) >= c.LoopStage(q) + 1;
    }
    SumAtLeast(SentAll(c, side.Peer(), peer, q), c.Iters(q));
    SumAtMost(SentAll(c, side.Peer(), peer, q), c.Iters(q));
    ShareFromRounds(x.start, c.Iters(q), x.wire, c.w, p);
    Shift(c.w, c.Iters(q), x.start + x.wire);
    assert CounterOk(c, h, side, g, p, q, x);
  }

  /** In scope: exactly Iters(q) dispatches each, counters at the prefill, the cursor home. */
  lemma ExactCompletion(c: Config, s: Pair, side: Side, g: nat, p: nat)
    requires c.Valid() && Inv(c, s) && InScope(c, s) && g < c.rx && p < c.w
    requires s.Reached(c, c.LoopStage(Phase(c, s, side)) + 1)
    requires InFlight(s.Of(side)[g]) == 0 && s.Of(side)[g].held.None?
    ensures var q, h := Phase(c, s, side), s.Of(side)[g];
            && h.picks == c.w * c.Iters(q)
            && Share(h.picks, c.w, p) == c.Iters(q)
            && h.syncs[p] == c.Prefill(q)
            && h.cursor == g
  {
    assert HalfAtOk(c, s, side, g, NoExcess(c));
    CompletionWith(c, s, side, g, p, NoExcess(c));
    ShareFromSplits(0, s.Of(side)[g].picks, c.w, p);
    NoExcessHome(c, g, p);
  }

  lemma NoExcessHome(c: Config, g: nat, p: nat)
    requires c.Valid() && p < c.w
    ensures NoExcess(c).counts[p] == 0 && WorkerId(c.rx, g, 0 % c.w) == g
  {
    Small(0, c.w);
  }
}

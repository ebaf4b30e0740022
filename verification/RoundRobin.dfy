/** Round-robin dispatch over `w` workers (benchmark/pingpong_prg.cpp:141-146, 174-179).
    Dispatch number k (counted from 0) goes to position k % w of the group. */
module RoundRobin {
  import opened Sums

  /** How many of the first `m` dispatches go to position `p`, by counting them. */
  function Share(m: nat, w: nat, p: nat): nat
    requires p < w
  {
    if m == 0 then 0 else Share(m - 1, w, p) + (if (m - 1) % w == p then 1 else 0)
  }

  lemma MulMonotone(a: nat, b: nat, w: nat)
    requires a <= b
    ensures a * w <= b * w
  {
  }

  lemma DivModUnique(a: nat, w: nat, q: nat, r: nat)
    requires 0 < w && r < w && a == q * w + r
    ensures a / w == q && a % w == r
  {
    var q', r' := a / w, a % w;
    assert q' * w + r' == q * w + r;
    if q' < q {
      MulMonotone(q' + 1, q, w);
    } else if q < q' {
      MulMonotone(q + 1, q', w);
    }
  }

  /** The closed form: ceiling division, shifted by the position. */
  lemma {:induction false} ShareClosedForm(m: nat, w: nat, p: nat)
    requires p < w
    ensures Share(m, w, p) == (m + w - 1 - p) / w
  {
    if m == 0 {
      DivModUnique(w - 1 - p, w, 0, w - 1 - p);
    } else {
      ShareClosedForm(m - 1, w, p);
      CeilingStep(m - 1, w, p);
    }
  }

  /** Whole rounds in front move the quotient and leave the remainder. */
  lemma Shift(w: nat, k: nat, n: nat)
    requires 0 < w
    ensures (w * k + n) / w == k + n / w && (w * k + n) % w == n % w
  {
    assert n == (n / w) * w + n % w;
    assert w * k + n == (k + n / w) * w + n % w;
    DivModUnique(w * k + n, w, k + n / w, n % w);
  }

  /** Quotient and remainder within the first two rounds. */
  lemma Small(n: nat, w: nat)
    requires n < 2 * w
    ensures n / w == (if n < w then 0 else 1) && n % w == if n < w then n else n - w
  {
    if n < w {
      DivModUnique(n, w, 0, n);
    } else {
      DivModUnique(n, w, 1, n - w);
    }
  }

  /** The ceiling moves exactly when the dispatch number hits the position. */
  lemma CeilingStep(k: nat, w: nat, p: nat)
    requires p < w
    ensures (k + w - p) / w == (k + w - 1 - p) / w + (if k % w == p then 1 else 0)
  {
    var q, r := k / w, k % w;
    assert k == w * q + r;
    Shift(w, q, r + w - p);
    Shift(w, q, r + w - 1 - p);
    Small(r + w - p, w);
    Small(r + w - 1 - p, w);
  }

  /** After a whole number of rounds every position has the same share. */
  lemma ShareWholeRounds(k: nat, w: nat, p: nat)
    requires p < w
    ensures Share(w * k, w, p) == k
    ensures (w * k) % w == 0
  {
    ShareClosedForm(w * k, w, p);
    DivModUnique(w * k + w - 1 - p, w, k, w - 1 - p);
    DivModUnique(w * k, w, k, 0);
  }

  /** Whole rounds shift every share alike. */
  lemma ShareAfterRounds(k: nat, e: nat, w: nat, p: nat)
    requires p < w
    ensures Share(w * k + e, w, p) == k + Share(e, w, p) && (w * k + e) % w == e % w
  {
    ShareClosedForm(w * k + e, w, p);
    ShareClosedForm(e, w, p);
    Shift(w, k, e);
    Shift(w, k, e + w - 1 - p);
  }

  /** How many of m dispatches go to position p if the first goes to position `start`. */
  function ShareFrom(start: nat, m: nat, w: nat, p: nat): nat
    requires p < w
  {
    if m == 0 then 0 else ShareFrom(start, m - 1, w, p) + (if (start + m - 1) % w == p then 1 else 0)
  }

  lemma {:induction false} ShareFromSplits(start: nat, m: nat, w: nat, p: nat)
    requires p < w
    ensures Share(start, w, p) + ShareFrom(start, m, w, p) == Share(start + m, w, p)
  {
    if m > 0 {
      ShareFromSplits(start, m - 1, w, p);
    }
  }

  lemma ShareFromClosedForm(start: nat, m: nat, w: nat, p: nat)
    requires p < w
    ensures (start + m + w - 1 - p) / w == (start + w - 1 - p) / w + ShareFrom(start, m, w, p)
  {
    ShareFromSplits(start, m, w, p);
    ShareClosedForm(start, w, p);
    ShareClosedForm(start + m, w, p);
  }

  /** Whole rounds serve everybody alike, wherever they start. */
  lemma ShareFromRounds(start: nat, k: nat, e: nat, w: nat, p: nat)
    requires p < w
    ensures ShareFrom(start, w * k + e, w, p) == k + ShareFrom(start, e, w, p)
  {
    ShareFromSplits(start, w * k + e, w, p);
    ShareFromSplits(start, e, w, p);
    ShareAfterRounds(k, start + e, w, p);
  }

  /** No position falls a full round behind. */
  lemma ShareFromAtLeast(start: nat, m: nat, w: nat, p: nat, k: nat)
    requires p < w && w * k <= m
    ensures k <= ShareFrom(start, m, w, p)
  {
    ShareFromRounds(start, k, m - w * k, w, p);
  }

  function SharesFrom(start: nat, m: nat, w: nat): (s: seq<nat>)
    requires 0 < w
    ensures |s| == w
  {
    seq(w, p requires 0 <= p < w => ShareFrom(start, m, w, p))
  }

  lemma SharesFromSum(start: nat, m: nat, w: nat)
    requires 0 < w
    ensures Sum(SharesFrom(start, m, w)) == m
  {
    forall p | 0 <= p < w ensures Shares(start + m, w)[p] == Shares(start, w)[p] + SharesFrom(start, m, w)[p] {
      ShareFromSplits(start, m, w, p);
    }
    SumPlus(Shares(start, w), SharesFrom(start, m, w), Shares(start + m, w));
    SharesSum(start, w);
    SharesSum(start + m, w);
  }

  function Shares(m: nat, w: nat): (s: seq<nat>)
    requires 0 < w
    ensures |s| == w
  {
    seq(w, p requires 0 <= p < w => Share(m, w, p))
  }

  /** Nothing is lost or duplicated: the shares add up to the dispatches. */
  lemma {:induction false} SharesSum(m: nat, w: nat)
    requires 0 < w
    ensures Sum(Shares(m, w)) == m
  {
    if m == 0 {
      SumAtMost(Shares(0, w), 0);
    } else {
      SharesSum(m - 1, w);
      var p := (m - 1) % w;
      assert Shares(m, w) == Shares(m - 1, w)[p := Share(m, w, p)];
      SumUpdate(Shares(m - 1, w), p, Share(m, w, p));
    }
  }

  /** If every position has been served at least k times, at least k rounds were dispatched. */
  lemma SharesForce(m: nat, w: nat, k: nat)
    requires 0 < w
    requires forall p | 0 <= p < w :: k <= Share(m, w, p)
    ensures w * k <= m
  {
    SharesSum(m, w);
    SumAtLeast(Shares(m, w), k);
  }

  /** The flat worker index of position `p` of group `g` (worker ids step by rx). */
  function WorkerId(rx: nat, g: nat, p: nat): nat {
    g + rx * p
  }

  /** Flat ids decode back to (group, position). */
  lemma WorkerIdDecodes(rx: nat, g: nat, p: nat)
    requires g < rx
    ensures WorkerId(rx, g, p) % rx == g && WorkerId(rx, g, p) / rx == p
  {
    DivModUnique(g + rx * p, rx, p, g);
  }

  /** incrementWorkerIdx: step by rx, wrap to the progress thread's own id. */
  function IncrementWorkerIdx(tx: nat, rx: nat, id: nat, idx: nat): nat {
    if idx + rx >= tx then id else idx + rx
  }

  /** On the flat ids the wrap-around is exactly "next position modulo w". */
  lemma IncrementIsNextPosition(w: nat, rx: nat, g: nat, m: nat)
    requires 0 < w && g < rx
    ensures IncrementWorkerIdx(rx * w, rx, g, WorkerId(rx, g, m % w)) == WorkerId(rx, g, (m + 1) % w)
  {
    var q, r := m / w, m % w;
    assert m == q * w + r;
    if r + 1 < w {
      DivModUnique(m + 1, w, q, r + 1);
      assert rx * w >= rx * (r + 2);
      assert rx * (r + 2) == rx * r + rx + rx;
      assert rx * (r + 1) == rx * r + rx;
    } else {
      assert (q + 1) * w == q * w + w;
      DivModUnique(m + 1, w, q + 1, 0);
      assert rx * w == rx * r + rx;
    }
  }
}

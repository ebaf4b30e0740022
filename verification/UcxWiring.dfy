/** The endpoint wiring of the UCX benchmark (benchmark/pingpong_prg_ucx.cpp): every worker owns one
    endpoint, every progress context one per worker of its group, and every progress context registers
    a handler for one message id. */
module UcxWiring {
  import opened RoundRobin

  lemma GroupSplits(tx: nat, rx: nat, j: nat)
    requires 0 < rx && tx % rx == 0 && j < tx
    ensures j % rx < rx && j / rx < tx / rx && WorkerId(rx, j % rx, j / rx) == j
  {
    var w := tx / rx;
    assert tx == rx * w;
    if j / rx >= w {
      MulMonotone(w, j / rx, rx);
    }
  }

  lemma GroupJoins(tx: nat, rx: nat, g: nat, p: nat)
    requires 0 < rx && tx % rx == 0 && g < rx && p < tx / rx
    ensures WorkerId(rx, g, p) < tx
  {
    MulMonotone(p + 1, tx / rx, rx);
  }

  /** The endpoint (context, index) serves worker i: it is the only one with that worker id. */
  predicate Serves(tx: nat, rx: nat, ep: (nat, nat), i: nat)
    requires 0 < rx
  {
    ep.0 < rx && ep.1 < tx / rx && WorkerId(rx, ep.0, ep.1) == i
  }

  lemma ServesOne(tx: nat, rx: nat, a: (nat, nat), b: (nat, nat), i: nat)
    requires 0 < rx && Serves(tx, rx, a, i) && Serves(tx, rx, b, i)
    ensures a == b
  {
    WorkerIdDecodes(rx, a.0, a.1);
    WorkerIdDecodes(rx, b.0, b.1);
  }

  /** The first loop: every worker's endpoint is connected to the remote endpoint that serves it. */
  method ConnectWorkers(tx: nat, rx: nat) returns (peer: array<(nat, nat)>)
    requires 0 < rx && tx % rx == 0
    ensures peer.Length == tx && forall i: nat | i < tx :: Serves(tx, rx, peer[i], i)
  {
    peer := new (nat, nat)[tx](_ => (0, 0));
    for i := 0 to tx
      invariant forall k: nat | k < i :: Serves(tx, rx, peer[k], k)
    {
      GroupSplits(tx, rx, i);
      peer[i] := (i % rx, i / rx);
    }
  }

  /** The second pair of loops: context g walks its workers g, g + rx, ... Endpoint p of context g is
      connected once, to the worker it serves. */
  method ConnectContexts(tx: nat, rx: nat) returns (peer: array2<nat>, times: array2<nat>)
    requires 0 < rx && tx % rx == 0
    ensures peer.Length0 == times.Length0 == rx && peer.Length1 == times.Length1 == tx / rx
    ensures forall g: nat, p: nat | g < rx && p < tx / rx :: peer[g, p] == WorkerId(rx, g, p) && times[g, p] == 1
  {
    var w := tx / rx;
    peer, times := new nat[rx, w]((_, _) => 0), new nat[rx, w]((_, _) => 0);
    for g := 0 to rx
      invariant forall i: nat, p: nat | i < g && p < w :: peer[i, p] == WorkerId(rx, i, p) && times[i, p] == 1
      invariant forall i: nat, p: nat | g <= i < rx && p < w :: times[i, p] == 0
    {
      ConnectContext(tx, rx, g, peer, times);
    }
  }

  /** One context. */
  method ConnectContext(tx: nat, rx: nat, g: nat, peer: array2<nat>, times: array2<nat>)
    requires 0 < rx && tx % rx == 0 && g < rx && peer != times
    requires peer.Length0 == times.Length0 == rx && peer.Length1 == times.Length1 == tx / rx
    requires forall p: nat | p < tx / rx :: times[g, p] == 0
    modifies peer, times
    ensures forall p: nat | p < tx / rx :: peer[g, p] == WorkerId(rx, g, p) && times[g, p] == 1
    ensures forall i: nat, p: nat | i < rx && i != g && p < tx / rx ::
              peer[i, p] == old(peer[i, p]) && times[i, p] == old(times[i, p])
  {
    var w := tx / rx;
    var j := g;
    ghost var k := 0;
    while j < tx
      invariant 0 <= k <= w && j == WorkerId(rx, g, k)
      invariant forall p: nat | p < k :: peer[g, p] == WorkerId(rx, g, p) && times[g, p] == 1
      invariant forall p: nat | k <= p < w :: times[g, p] == 0
      invariant forall i: nat, p: nat | i < rx && i != g && p < w ::
                  peer[i, p] == old(peer[i, p]) && times[i, p] == old(times[i, p])
      decreases w - k
    {
      WorkerIdDecodes(rx, g, k);
      GroupSplits(tx, rx, j);
      peer[g, j / rx] := j;
      times[g, j / rx] := times[g, j / rx] + 1;
      assert rx * (k + 1) == rx * k + rx;
      j, k := j + rx, k + 1;
    }
    if k < w {
      GroupJoins(tx, rx, g, k);
    }
  }

  /** The handlers of each context's interface, by message id: the id of the progress thread that the
      callback is given. */
  method RegisterHandlers(rx: nat) returns (handlers: array<map<nat, nat>>)
    ensures handlers.Length == rx
    ensures forall g: nat | g < rx :: handlers[g].Keys == {g} && handlers[g][g] == g
  {
    handlers := new map<nat, nat>[rx](_ => map[]);
    for i := 0 to rx
      invariant forall g: nat | g < i :: handlers[g].Keys == {g} && handlers[g][g] == g
      invariant forall g: nat | i <= g < rx :: handlers[g] == map[]
    {
      handlers[i] := handlers[i][i := i];
    }
  }

  /** The message id worker i sends under. */
  function DestMessageId(rx: nat, i: nat): nat
    requires 0 < rx
  {
    i % rx
  }

  /** All three loops: the connections the two sides make are inverse to each other, every endpoint is
      connected once, and a message from worker i is taken, at the context its endpoint is connected to,
      by a handler that dispatches to the group of worker i. */
  method Wire(tx: nat, rx: nat)
    returns (workerPeer: array<(nat, nat)>, ctxPeer: array2<nat>, times: array2<nat>, handlers: array<map<nat, nat>>)
    requires 0 < rx && tx % rx == 0
    ensures workerPeer.Length == tx && handlers.Length == rx
    ensures ctxPeer.Length0 == times.Length0 == rx && ctxPeer.Length1 == times.Length1 == tx / rx
    ensures forall i: nat | i < tx ::
              && workerPeer[i].0 < rx && workerPeer[i].1 < tx / rx
              && ctxPeer[workerPeer[i].0, workerPeer[i].1] == i
              && DestMessageId(rx, i) in handlers[workerPeer[i].0]
              && handlers[workerPeer[i].0][DestMessageId(rx, i)] == workerPeer[i].0
    ensures forall g: nat, p: nat | g < rx && p < tx / rx ::
              times[g, p] == 1 && ctxPeer[g, p] < tx && workerPeer[ctxPeer[g, p]] == (g, p)
  {
    workerPeer := ConnectWorkers(tx, rx);
    ctxPeer, times := ConnectContexts(tx, rx);
    handlers := RegisterHandlers(rx);
    forall i: nat | i < tx ensures DestMessageId(rx, i) == workerPeer[i].0 {
      assert Serves(tx, rx, workerPeer[i], i);
      WorkerIdDecodes(rx, workerPeer[i].0, workerPeer[i].1);
    }
    forall g: nat, p: nat | g < rx && p < tx / rx
      ensures ctxPeer[g, p] < tx && workerPeer[ctxPeer[g, p]] == (g, p)
    {
      GroupJoins(tx, rx, g, p);
      ServesOne(tx, rx, workerPeer[ctxPeer[g, p]], (g, p), ctxPeer[g, p]);
    }
  }
}

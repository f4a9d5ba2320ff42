/**
  Network evaluation by memoized recursion over a connection graph that may
  contain cycles. The activation function (a sigmoid in the original) is the
  parameter `act`.

  A node that is not yet memoized is registered with the provisional value 0
  before its incoming connections are followed, so a cycle that leads back
  to it reads 0 instead of recursing again. Once its incoming sum is known,
  the memo keeps that sum (before activation) while the call returns the
  activated value: a node reached a second time contributes its raw sum.
 */
module Evaluation {
  import opened Genes
  import Construction

  /** Values known so far, keyed by node id. */
  type Memo = map<NodeId, real>

  /** A value together with the memo after computing it. */
  datatype Evaluated = Evaluated(value: real, memo: Memo)

  /** The node ids evaluation can descend into: the sources of connections. */
  function Sources(g: Genome): set<NodeId> {
    set c | c in g.connections :: c.inNode
  }

  /**
    The value of node `id` and the memo after computing it. Terminates on
    every graph: each descent either memoizes a new node among `Sources(g)`
    or moves on to the next connection.
   */
  function CalculateNode(g: Genome, act: real -> real, id: NodeId, memo: Memo): (r: Evaluated)
    ensures memo.Keys + {id} <= r.memo.Keys
    ensures id in memo ==> r == Evaluated(memo[id], memo)
    ensures id !in memo ==> r.value == act(r.memo[id])
    decreases Sources(g) + {id} - memo.Keys, 0, 0
  {
    if id in memo then Evaluated(memo[id], memo)
    else
      var incoming := SumIncoming(g, act, id, 0, 0.0, memo[id := 0.0]);
      Evaluated(act(incoming.value), incoming.memo[id := incoming.value])
  }

  /**
    Adds to `acc`, over the enabled connections from position `i` on that
    end at `id`, the value of the source times the weight, threading the memo.
   */
  function SumIncoming(g: Genome, act: real -> real, id: NodeId, i: nat, acc: real, memo: Memo): (r: Evaluated)
    requires i <= |g.connections|
    requires id in memo
    ensures memo.Keys <= r.memo.Keys
    decreases Sources(g) - memo.Keys, 1, |g.connections| - i
  {
    if i == |g.connections| then Evaluated(acc, memo)
    else
      var c := g.connections[i];
      if c.outNode == id && c.enabled then
        assert c.inNode in Sources(g);
        var source := CalculateNode(g, act, c.inNode, memo);
        SumIncoming(g, act, id, i + 1, Accumulate(acc, source.value, c), source.memo)
      else
        SumIncoming(g, act, id, i + 1, acc, memo)
  }

  /** The running sum once connection `c` has delivered `value`. */
  function Accumulate(acc: real, value: real, c: ConnectionGene): real {
    acc + value * c.weight
  }

  /**
    Evaluating a node memoizes nothing but that node and sources of
    connections; together with the growth stated on `CalculateNode`, this
    bounds the memo by the nodes the genome can route values from.
   */
  lemma {:induction false} CalculateNodeMemoizesSources(g: Genome, act: real -> real, id: NodeId, memo: Memo)
    ensures CalculateNode(g, act, id, memo).memo.Keys <= memo.Keys + {id} + Sources(g)
    decreases Sources(g) + {id} - memo.Keys, 0, 0
  {
    if id !in memo {
      var start := memo[id := 0.0];
      assert id in Sources(g) + {id} - memo.Keys;
      assert id !in Sources(g) - start.Keys;
      SumIncomingMemoizesSources(g, act, id, 0, 0.0, start);
      CalculateNodeUnfolds(g, act, id, memo);
    }
  }

  /** The fold memoizes nothing but sources of connections. */
  lemma {:induction false} SumIncomingMemoizesSources(g: Genome, act: real -> real, id: NodeId, i: nat, acc: real, memo: Memo)
    requires i <= |g.connections|
    requires id in memo
    ensures SumIncoming(g, act, id, i, acc, memo).memo.Keys <= memo.Keys + Sources(g)
    decreases Sources(g) - memo.Keys, 1, |g.connections| - i
  {
    if i < |g.connections| {
      var c := g.connections[i];
      if c.outNode == id && c.enabled {
        assert c.inNode in Sources(g);
        var source := CalculateNode(g, act, c.inNode, memo);
        CalculateNodeMemoizesSources(g, act, c.inNode, memo);
        SumIncomingTakes(g, act, id, i, acc, memo, source.value, source.memo, Accumulate(acc, source.value, c));
        assert memo.Keys <= source.memo.Keys;
        SumIncomingMemoizesSources(g, act, id, i + 1, Accumulate(acc, source.value, c), source.memo);
      } else {
        SumIncomingSkips(g, act, id, i, acc, memo);
        SumIncomingMemoizesSources(g, act, id, i + 1, acc, memo);
      }
    }
  }

  /** Evaluating a node never changes a value already in the memo. */
  lemma {:induction false} CalculateNodeKeepsMemo(g: Genome, act: real -> real, id: NodeId, memo: Memo)
    ensures forall k | k in memo :: CalculateNode(g, act, id, memo).memo[k] == memo[k]
    decreases Sources(g) + {id} - memo.Keys, 0, 0
  {
    if id !in memo {
      var start := memo[id := 0.0];
      assert id in Sources(g) + {id} - memo.Keys;
      assert id !in Sources(g) - start.Keys;
      SumIncomingKeepsMemo(g, act, id, 0, 0.0, start);
      CalculateNodeUnfolds(g, act, id, memo);
    }
  }

  /** The fold never changes a value already in the memo. */
  lemma {:induction false} SumIncomingKeepsMemo(g: Genome, act: real -> real, id: NodeId, i: nat, acc: real, memo: Memo)
    requires i <= |g.connections|
    requires id in memo
    ensures forall k | k in memo :: SumIncoming(g, act, id, i, acc, memo).memo[k] == memo[k]
    decreases Sources(g) - memo.Keys, 1, |g.connections| - i
  {
    if i < |g.connections| {
      var c := g.connections[i];
      if c.outNode == id && c.enabled {
        assert c.inNode in Sources(g);
        var source := CalculateNode(g, act, c.inNode, memo);
        CalculateNodeKeepsMemo(g, act, c.inNode, memo);
        SumIncomingTakes(g, act, id, i, acc, memo, source.value, source.memo, Accumulate(acc, source.value, c));
        assert memo.Keys <= source.memo.Keys;
        SumIncomingKeepsMemo(g, act, id, i + 1, Accumulate(acc, source.value, c), source.memo);
      } else {
        SumIncomingSkips(g, act, id, i, acc, memo);
        SumIncomingKeepsMemo(g, act, id, i + 1, acc, memo);
      }
    }
  }

  /** The memo evaluation starts from: the two inputs seeded at nodes 0 and 1. */
  function Seeds(a: real, b: real): Memo {
    map[0 := a, 1 := b]
  }

  /**
    The network's output for inputs `a` and `b`: the value of node 2. Node 2
    is never seeded, so the result is always an activated value.
   */
  function CalculateOutput(g: Genome, act: real -> real, a: real, b: real): (r: real)
    ensures var after := CalculateNode(g, act, 2, Seeds(a, b)).memo;
      2 in after && r == act(after[2])
  {
    CalculateNode(g, act, 2, Seeds(a, b)).value
  }

  /** Whatever the genome, the output lies in the range of the activation. */
  lemma OutputInActivationRange(g: Genome, act: real -> real, a: real, b: real)
    requires forall x :: 0.0 < act(x) < 1.0
    ensures 0.0 < CalculateOutput(g, act, a, b) < 1.0
  {
  }

  /** The outputs on the four rows of the XOR truth table, in the order the fitness sums them. */
  function XorOutputs(g: Genome, act: real -> real): (r: seq<real>)
    ensures |r| == 4
  {
    [ CalculateOutput(g, act, 0.0, 0.0), CalculateOutput(g, act, 0.0, 1.0),
      CalculateOutput(g, act, 1.0, 0.0), CalculateOutput(g, act, 1.0, 1.0) ]
  }

  /** With a sigmoid-like activation, all four XOR outputs lie strictly between 0 and 1. */
  lemma XorOutputsInUnitInterval(g: Genome, act: real -> real)
    requires forall x :: 0.0 < act(x) < 1.0
    ensures forall k | 0 <= k < 4 :: 0.0 < XorOutputs(g, act)[k] < 1.0
  {
  }

  // Reference semantics for a node whose inputs are all known.

  /** Every enabled connection of `conns` that ends at `id` starts at a node `values` knows. */
  predicate InputsKnown(conns: seq<ConnectionGene>, id: NodeId, values: Memo) {
    forall k | 0 <= k < |conns| :: conns[k].outNode == id && conns[k].enabled ==> conns[k].inNode in values
  }

  /** What connection `c` adds to the sum of node `id`: source value times weight, if it counts. */
  function Contribution(c: ConnectionGene, id: NodeId, values: Memo): real
    requires c.outNode == id && c.enabled ==> c.inNode in values
  {
    if c.outNode == id && c.enabled then values[c.inNode] * c.weight else 0.0
  }

  /** The weighted sum of the known inputs of `id`, without any recursion. */
  function DirectSum(conns: seq<ConnectionGene>, id: NodeId, values: Memo): real
    requires InputsKnown(conns, id, values)
  {
    if |conns| == 0 then 0.0
    else Contribution(conns[0], id, values) + DirectSum(conns[1..], id, values)
  }

  /** With every input known, the fold adds exactly the direct sum and memoizes nothing. */
  lemma {:induction false} SumIncomingOfKnownInputs(g: Genome, act: real -> real, id: NodeId, i: nat, acc: real, memo: Memo)
    requires i <= |g.connections|
    requires id in memo
    requires InputsKnown(g.connections[i..], id, memo)
    ensures SumIncoming(g, act, id, i, acc, memo) == Evaluated(acc + DirectSum(g.connections[i..], id, memo), memo)
    decreases |g.connections| - i
  {
    if i < |g.connections| {
      var rest := g.connections[i..];
      assert rest[1..] == g.connections[i + 1..];
      assert InputsKnown(g.connections[i + 1..], id, memo) by {
        forall k | 0 <= k < |rest| - 1
          ensures rest[1..][k] == rest[k + 1]
        {
        }
      }
      var c := g.connections[i];
      assert c == rest[0];
      if c.outNode == id && c.enabled {
        assert c.inNode in memo;
        SumIncomingTakes(g, act, id, i, acc, memo, memo[c.inNode], memo, Accumulate(acc, memo[c.inNode], c));
        assert DirectSum(rest, id, memo) == Contribution(c, id, memo) + DirectSum(rest[1..], id, memo);
        assert DirectSum(rest, id, memo) == memo[c.inNode] * c.weight + DirectSum(rest[1..], id, memo);
        SumIncomingOfKnownInputs(g, act, id, i + 1, Accumulate(acc, memo[c.inNode], c), memo);
      } else {
        SumIncomingSkips(g, act, id, i, acc, memo);
        SumIncomingOfKnownInputs(g, act, id, i + 1, acc, memo);
      }
    }
  }

  /** A node not yet memoized is the activation of its fold, and the memo then holds the fold's sum. */
  lemma CalculateNodeUnfolds(g: Genome, act: real -> real, id: NodeId, memo: Memo)
    requires id !in memo
    ensures var incoming := SumIncoming(g, act, id, 0, 0.0, memo[id := 0.0]);
      CalculateNode(g, act, id, memo) == Evaluated(act(incoming.value), incoming.memo[id := incoming.value])
  {
  }

  /**
    One step of the fold over an enabled connection into `id`: its source
    evaluates to `value` (updating the memo to `after`), and the fold goes on
    from `next`, which is `acc` plus `value` times the weight.
   */
  lemma SumIncomingTakes(g: Genome, act: real -> real, id: NodeId, i: nat, acc: real, memo: Memo, value: real, after: Memo, next: real)
    requires i < |g.connections|
    requires id in memo
    requires g.connections[i].outNode == id && g.connections[i].enabled
    requires CalculateNode(g, act, g.connections[i].inNode, memo) == Evaluated(value, after)
    requires next == Accumulate(acc, value, g.connections[i])
    ensures SumIncoming(g, act, id, i, acc, memo) == SumIncoming(g, act, id, i + 1, next, after)
  {
  }

  /** One step of the fold over any other connection: nothing is added and nothing evaluated. */
  lemma SumIncomingSkips(g: Genome, act: real -> real, id: NodeId, i: nat, acc: real, memo: Memo)
    requires i < |g.connections|
    requires id in memo
    requires !(g.connections[i].outNode == id && g.connections[i].enabled)
    ensures SumIncoming(g, act, id, i, acc, memo) == SumIncoming(g, act, id, i + 1, acc, memo)
  {
  }

  /**
    A node whose inputs are all seeded (or are the node itself, read as the
    provisional 0) evaluates to the activation of the direct weighted sum,
    and the memo records that sum before activation.
   */
  lemma CalculateNodeOfKnownInputs(g: Genome, act: real -> real, id: NodeId, memo: Memo)
    requires id !in memo
    requires InputsKnown(g.connections, id, memo[id := 0.0])
    ensures var s := DirectSum(g.connections, id, memo[id := 0.0]);
      CalculateNode(g, act, id, memo) == Evaluated(act(s), memo[id := s])
  {
    var start := memo[id := 0.0];
    assert g.connections[0..] == g.connections;
    SumIncomingOfKnownInputs(g, act, id, 0, 0.0, start);
    var s := DirectSum(g.connections, id, start);
    assert start[id := s] == memo[id := s];
  }

  // The initial genome with two inputs.

  /** Initial connection `n` of a two-input genome, read off its row-major position. */
  lemma InitialTwoInputConnection(g: Genome, outputSize: U32, samples: seq<real>, n: nat)
    requires 2 + outputSize <= U32_LIMIT
    requires |samples| == 2 * outputSize && Construction.ValidSamples(samples)
    requires Construction.InitialGenome(g, 2, outputSize, samples)
    requires n < |g.connections|
    ensures g.connections[n].inNode == (if n < outputSize then 0 else 1)
    ensures g.connections[n].outNode == 2 <==> n == 0 || n == outputSize
    ensures g.connections[n].enabled && g.connections[n].weight == UnitToWeight(samples[n])
  {
  }

  /** What initial connection `n` of a two-input genome adds to the sum of node 2. */
  lemma InitialContribution(g: Genome, outputSize: U32, samples: seq<real>, values: Memo, n: nat)
    requires 2 + outputSize <= U32_LIMIT && outputSize > 0
    requires |samples| == 2 * outputSize && Construction.ValidSamples(samples)
    requires Construction.InitialGenome(g, 2, outputSize, samples)
    requires 0 in values && 1 in values
    requires n < |g.connections|
    ensures g.connections[n].inNode in values
    ensures Contribution(g.connections[n], 2, values)
         == if n == 0 then values[0] * UnitToWeight(samples[0])
            else if n == outputSize then values[1] * UnitToWeight(samples[outputSize])
            else 0.0
  {
  }

  /**
    Over the initial connections from position `n` on, the enabled ones into
    node 2 (the first output) are those of cell 0 (from input 0) and cell
    `outputSize` (from input 1).
   */
  lemma {:induction false} InitialSuffixSum(g: Genome, outputSize: U32, samples: seq<real>, values: Memo, n: nat)
    requires 2 + outputSize <= U32_LIMIT && outputSize > 0
    requires |samples| == 2 * outputSize && Construction.ValidSamples(samples)
    requires Construction.InitialGenome(g, 2, outputSize, samples)
    requires 0 in values && 1 in values
    requires n <= |g.connections|
    ensures InputsKnown(g.connections[n..], 2, values)
    ensures DirectSum(g.connections[n..], 2, values)
         == (if n == 0 then values[0] * UnitToWeight(samples[0]) else 0.0)
          + (if n <= outputSize then values[1] * UnitToWeight(samples[outputSize]) else 0.0)
    decreases |g.connections| - n
  {
    var rest := g.connections[n..];
    forall k | 0 <= k < |rest|
      ensures rest[k].inNode in values
    {
      InitialTwoInputConnection(g, outputSize, samples, n + k);
    }
    if n < |g.connections| {
      InitialSuffixSum(g, outputSize, samples, values, n + 1);
      assert rest[1..] == g.connections[n + 1..];
      assert rest[0] == g.connections[n];
      InitialContribution(g, outputSize, samples, values, n);
      assert DirectSum(rest, 2, values) == Contribution(rest[0], 2, values) + DirectSum(rest[1..], 2, values);
    }
  }

  /**
    On a freshly built genome with two inputs, the output is the activation
    of input 0 times the first weight plus input 1 times the weight of its
    connection to node 2.
   */
  lemma InitialOutput(g: Genome, act: real -> real, outputSize: U32, samples: seq<real>, a: real, b: real)
    requires 2 + outputSize <= U32_LIMIT && outputSize > 0
    requires |samples| == 2 * outputSize && Construction.ValidSamples(samples)
    requires Construction.InitialGenome(g, 2, outputSize, samples)
    ensures CalculateOutput(g, act, a, b)
         == act(a * UnitToWeight(samples[0]) + b * UnitToWeight(samples[outputSize]))
  {
    var start := Seeds(a, b)[2 := 0.0];
    InitialSuffixSum(g, outputSize, samples, start, 0);
    assert g.connections[0..] == g.connections;
    var s := DirectSum(g.connections, 2, start);
    assert s == a * UnitToWeight(samples[0]) + b * UnitToWeight(samples[outputSize]);
    CalculateNodeOfKnownInputs(g, act, 2, Seeds(a, b));
    assert CalculateNode(g, act, 2, Seeds(a, b)).value == act(s);
  }

  // Small graphs that show the cycle rule and the memo quirk.

  /** The direct sum over three connections, spelled out. */
  lemma ThreeConnectionSum(conns: seq<ConnectionGene>, id: NodeId, values: Memo)
    requires |conns| == 3
    requires InputsKnown(conns, id, values)
    ensures DirectSum(conns, id, values)
         == Contribution(conns[0], id, values) + Contribution(conns[1], id, values) + Contribution(conns[2], id, values)
  {
    var tail := conns[1..];
    assert tail[0] == conns[1] && tail[1..] == [conns[2]];
    assert DirectSum(tail[1..], id, values) == Contribution(conns[2], id, values) + DirectSum([], id, values);
    assert DirectSum(tail, id, values) == Contribution(conns[1], id, values) + DirectSum(tail[1..], id, values);
  }

  /**
    Inputs 0 and 1, output 2 and hidden node 3, with input 0 feeding node 3,
    node 3 feeding node 2, and a third connection `third`.
   */
  function HiddenLayer(u: real, v: real, third: ConnectionGene): (g: Genome)
    requires third.inNode < 4 && third.outNode < 4
    ensures Wf(g)
  {
    Genome([NodeGene(0, Input), NodeGene(1, Input), NodeGene(2, Output), NodeGene(3, Hidden)],
           [ConnectionGene(0, 3, u, true), ConnectionGene(3, 2, v, true), third])
  }

  /** The memo when node 2 starts evaluating: the seeds and the provisional 0 of node 2. */
  function Provisional(a: real, b: real): (m: Memo)
    ensures m.Keys == {0, 1, 2}
  {
    Seeds(a, b)[2 := 0.0]
  }

  /**
    Node 3, reached from node 2, evaluates to the activation of input 0
    times `u`, and the memo keeps that sum: the only edge `third` may add
    into node 3 comes from node 2, which reads its provisional 0.
   */
  lemma HiddenNodeValue(act: real -> real, a: real, b: real, u: real, v: real, third: ConnectionGene)
    requires third.inNode < 4 && third.outNode < 4
    requires third.outNode == 3 && third.enabled ==> third.inNode == 2
    ensures CalculateNode(HiddenLayer(u, v, third), act, 3, Provisional(a, b))
         == Evaluated(act(a * u), Provisional(a, b)[3 := a * u])
  {
    var g := HiddenLayer(u, v, third);
    var start := Provisional(a, b);
    var values := start[3 := 0.0];
    assert values.Keys == {0, 1, 2, 3};
    assert InputsKnown(g.connections, 3, values);
    CalculateNodeOfKnownInputs(g, act, 3, start);
    ThreeConnectionSum(g.connections, 3, values);
    var direct := DirectSum(g.connections, 3, values);
    assert Contribution(g.connections[0], 3, values) == a * u;
    assert Contribution(g.connections[1], 3, values) == 0.0;
    assert Contribution(g.connections[2], 3, values) == 0.0;
    assert direct == a * u;
    assert act(direct) == act(a * u);
  }

  /** The output is the activation of the fold of node 2, started from the provisional memo. */
  lemma OutputOfFold(g: Genome, act: real -> real, a: real, b: real, total: real, after: Memo)
    requires SumIncoming(g, act, 2, 0, 0.0, Provisional(a, b)) == Evaluated(total, after)
    ensures CalculateOutput(g, act, a, b) == act(total)
  {
  }

  /** The fold of node 2 in the cycle: node 3 is evaluated once, the back edge is skipped. */
  lemma CycleFold(act: real -> real, a: real, b: real, u: real, v: real, w: real)
    ensures SumIncoming(HiddenLayer(u, v, ConnectionGene(2, 3, w, true)), act, 2, 0, 0.0, Provisional(a, b))
         == Evaluated(act(a * u) * v, Provisional(a, b)[3 := a * u])
  {
    var g := HiddenLayer(u, v, ConnectionGene(2, 3, w, true));
    var start := Provisional(a, b);
    HiddenNodeValue(act, a, b, u, v, g.connections[2]);
    var after := start[3 := a * u];
    var acc := Accumulate(0.0, act(a * u), g.connections[1]);
    SumIncomingSkips(g, act, 2, 0, 0.0, start);
    SumIncomingTakes(g, act, 2, 1, 0.0, start, act(a * u), after, acc);
    SumIncomingSkips(g, act, 2, 2, acc, after);
    assert SumIncoming(g, act, 2, 3, acc, after) == Evaluated(acc, after);
    assert acc == act(a * u) * v;
  }

  /**
    A genome whose output node 2 and hidden node 3 feed each other: the
    evaluation terminates, and the back edge from node 2 into node 3 reads
    the provisional 0 registered for node 2, so its weight `w` plays no part.
   */
  lemma CycleReadsProvisionalZero(act: real -> real, a: real, b: real, u: real, v: real, w: real)
    ensures CalculateOutput(HiddenLayer(u, v, ConnectionGene(2, 3, w, true)), act, a, b)
         == act(act(a * u) * v)
  {
    CycleFold(act, a, b, u, v, w);
    OutputOfFold(HiddenLayer(u, v, ConnectionGene(2, 3, w, true)), act, a, b, act(a * u) * v, Provisional(a, b)[3 := a * u]);
  }

  /** The fold of node 2 with two edges from node 3: the second reads node 3's stored sum. */
  lemma RevisitFold(act: real -> real, a: real, b: real, u: real, v: real, w: real)
    ensures SumIncoming(HiddenLayer(u, v, ConnectionGene(3, 2, w, true)), act, 2, 0, 0.0, Provisional(a, b))
         == Evaluated(act(a * u) * v + (a * u) * w, Provisional(a, b)[3 := a * u])
  {
    var g := HiddenLayer(u, v, ConnectionGene(3, 2, w, true));
    var start := Provisional(a, b);
    HiddenNodeValue(act, a, b, u, v, g.connections[2]);
    var after := start[3 := a * u];
    var acc := Accumulate(0.0, act(a * u), g.connections[1]);
    var total := Accumulate(acc, a * u, g.connections[2]);
    SumIncomingSkips(g, act, 2, 0, 0.0, start);
    SumIncomingTakes(g, act, 2, 1, 0.0, start, act(a * u), after, acc);
    SumIncomingTakes(g, act, 2, 2, acc, after, a * u, after, total);
    assert SumIncoming(g, act, 2, 3, total, after) == Evaluated(total, after);
    assert total == act(a * u) * v + (a * u) * w;
  }

  /**
    Two connections from hidden node 3 into node 2: the first reaches node 3
    fresh and receives its activated value, the second finds node 3 in the
    memo and receives the sum stored there, before activation.
   */
  lemma RevisitReadsRawSum(act: real -> real, a: real, b: real, u: real, v: real, w: real)
    ensures CalculateOutput(HiddenLayer(u, v, ConnectionGene(3, 2, w, true)), act, a, b)
         == act(act(a * u) * v + (a * u) * w)
  {
    RevisitFold(act, a, b, u, v, w);
    OutputOfFold(HiddenLayer(u, v, ConnectionGene(3, 2, w, true)), act, a, b,
                 act(a * u) * v + (a * u) * w, Provisional(a, b)[3 := a * u]);
  }
}

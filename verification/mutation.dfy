/**
  The five mutation operators and the uniform choice between them. Each
  operator returns a modified copy of the genome. The random draws of the
  original are explicit parameters here:
  - a `pick` chooses a list element; the element taken is `pick % length`, so
    every element can be chosen, and an empty list (where the original
    panics) is excluded by a precondition;
  - a `unit` is a uniform draw in [0, 1), scaled as the original scales it;
  - a `selector` is the 32-bit draw that `Mutate` reduces modulo 5.
 */
module Mutation {
  import opened Genes
  import Construction

  /** Same source and target. */
  predicate SameEdge(a: ConnectionGene, b: ConnectionGene) {
    a.inNode == b.inNode && a.outNode == b.outNode
  }

  /** `after` has the length of `before` and differs from it at most at position `j`. */
  predicate ChangesAtMost(before: seq<ConnectionGene>, after: seq<ConnectionGene>, j: nat) {
    && |after| == |before|
    && j < |before|
    && forall k | 0 <= k < |before| && k != j :: after[k] == before[k]
  }

  /** Flips the enabled flag of one connection. */
  function ToggleConnection(g: Genome, pick: nat): (r: Genome)
    requires |g.connections| > 0
    ensures r.nodes == g.nodes
    ensures var j := pick % |g.connections|;
      && ChangesAtMost(g.connections, r.connections, j)
      && SameEdge(r.connections[j], g.connections[j])
      && r.connections[j].weight == g.connections[j].weight
      && r.connections[j].enabled == !g.connections[j].enabled
  {
    var j := pick % |g.connections|;
    var c := g.connections[j];
    g.(connections := g.connections[j := c.(enabled := !c.enabled)])
  }

  /** Adds noise in [-0.1, 0.1) to the weight of one connection. */
  function PerturbWeight(g: Genome, pick: nat, unit: real): (r: Genome)
    requires |g.connections| > 0
    requires 0.0 <= unit < 1.0
    ensures r.nodes == g.nodes
    ensures var j := pick % |g.connections|;
      && ChangesAtMost(g.connections, r.connections, j)
      && SameEdge(r.connections[j], g.connections[j])
      && r.connections[j].enabled == g.connections[j].enabled
      && r.connections[j].weight == g.connections[j].weight + UnitToNoise(unit)
      && g.connections[j].weight - 0.1 <= r.connections[j].weight < g.connections[j].weight + 0.1
  {
    var j := pick % |g.connections|;
    var c := g.connections[j];
    g.(connections := g.connections[j := c.(weight := c.weight + UnitToNoise(unit))])
  }

  /** Overwrites the weight of one connection with a fresh weight in [-1, 1). */
  function ReplaceWeight(g: Genome, pick: nat, unit: real): (r: Genome)
    requires |g.connections| > 0
    requires 0.0 <= unit < 1.0
    ensures r.nodes == g.nodes
    ensures var j := pick % |g.connections|;
      && ChangesAtMost(g.connections, r.connections, j)
      && SameEdge(r.connections[j], g.connections[j])
      && r.connections[j].enabled == g.connections[j].enabled
      && r.connections[j].weight == UnitToWeight(unit)
  {
    var j := pick % |g.connections|;
    var c := g.connections[j];
    g.(connections := g.connections[j := c.(weight := UnitToWeight(unit))])
  }

  /**
    Appends one enabled connection between two nodes picked independently;
    they may coincide and may already be connected.
   */
  function AddConnection(g: Genome, source: nat, target: nat, unit: real): (r: Genome)
    requires |g.nodes| > 0
    requires 0.0 <= unit < 1.0
    ensures r.nodes == g.nodes
    ensures |r.connections| == |g.connections| + 1
    ensures r.connections[..|g.connections|] == g.connections
    ensures var c := r.connections[|g.connections|];
      && HasNode(g.nodes, c.inNode) && HasNode(g.nodes, c.outNode)
      && c.inNode == g.nodes[source % |g.nodes|].id
      && c.outNode == g.nodes[target % |g.nodes|].id
      && c.enabled && c.weight == UnitToWeight(unit) && -1.0 <= c.weight < 1.0
  {
    var from := g.nodes[source % |g.nodes|];
    var to := g.nodes[target % |g.nodes|];
    g.(connections := g.connections + [ConnectionGene(from.id, to.id, UnitToWeight(unit), true)])
  }

  /** The id a new hidden node receives: the node count, truncated to 32 bits. */
  function FreshId(g: Genome): NodeId {
    |g.nodes| % U32_LIMIT
  }

  /**
    Splits one connection: disables it, adds one hidden node, and appends
    an enabled connection from the old source to the new node (weight 1)
    and one from the new node to the old target (the old weight).
   */
  function AddNode(g: Genome, pick: nat): (r: Genome)
    requires |g.connections| > 0
    ensures |r.nodes| == |g.nodes| + 1
    ensures r.nodes[..|g.nodes|] == g.nodes
    ensures r.nodes[|g.nodes|] == NodeGene(|g.nodes| % U32_LIMIT, Hidden)
    ensures |g.nodes| < U32_LIMIT ==> r.nodes[|g.nodes|].id == |g.nodes|
    ensures |r.connections| == |g.connections| + 2
    ensures var j := pick % |g.connections|;
      var chosen := g.connections[j];
      var split := r.connections[..|g.connections|];
      var added := r.nodes[|g.nodes|].id;
      && ChangesAtMost(g.connections, split, j)
      && SameEdge(split[j], chosen) && split[j].weight == chosen.weight && !split[j].enabled
      && r.connections[|g.connections|] == ConnectionGene(chosen.inNode, added, 1.0, true)
      && r.connections[|g.connections| + 1] == ConnectionGene(added, chosen.outNode, chosen.weight, true)
  {
    var j := pick % |g.connections|;
    var c := g.connections[j].(enabled := false);
    var node := NodeGene(FreshId(g), Hidden);
    var first := ConnectionGene(c.inNode, node.id, 1.0, true);
    var second := ConnectionGene(node.id, c.outNode, c.weight, true);
    Genome(g.nodes + [node], g.connections[j := c] + [first, second])
  }

  /** The random values one call of `Mutate` may consume. */
  datatype Draw = Draw(selector: U32, connection: nat, source: nat, target: nat, unit: real)

  /** The operator `Mutate` applies for this draw can pick what it needs. */
  predicate CanMutate(g: Genome, d: Draw) {
    && 0.0 <= d.unit < 1.0
    && (if d.selector % 5 == 3 then |g.nodes| > 0 else |g.connections| > 0)
  }

  /**
    Applies the operator numbered `selector % 5`: toggle, perturb, replace,
    add connection, add node.
   */
  function Mutate(g: Genome, d: Draw): (r: Genome)
    requires CanMutate(g, d)
    ensures |g.nodes| <= |r.nodes| && r.nodes[..|g.nodes|] == g.nodes
    ensures d.selector % 5 <= 2 ==>
      var j := d.connection % |g.connections|;
      && r.nodes == g.nodes && ChangesAtMost(g.connections, r.connections, j)
      && SameEdge(r.connections[j], g.connections[j])
      && (d.selector % 5 == 0 ==> r.connections[j] == g.connections[j].(enabled := !g.connections[j].enabled))
      && (d.selector % 5 == 1 ==> r.connections[j] == g.connections[j].(weight := g.connections[j].weight + UnitToNoise(d.unit)))
      && (d.selector % 5 == 2 ==> r.connections[j] == g.connections[j].(weight := UnitToWeight(d.unit)))
    ensures d.selector % 5 == 3 ==>
      && r.nodes == g.nodes && |r.connections| == |g.connections| + 1
      && r.connections[..|g.connections|] == g.connections
      && r.connections[|g.connections|] == ConnectionGene(
           g.nodes[d.source % |g.nodes|].id, g.nodes[d.target % |g.nodes|].id, UnitToWeight(d.unit), true)
    ensures d.selector % 5 == 4 ==>
      var j := d.connection % |g.connections|;
      var chosen := g.connections[j];
      && |r.nodes| == |g.nodes| + 1 && r.nodes[..|g.nodes|] == g.nodes
      && |r.connections| == |g.connections| + 2
      && var added := r.nodes[|g.nodes|];
      && added == NodeGene(|g.nodes| % U32_LIMIT, Hidden)
      && ChangesAtMost(g.connections, r.connections[..|g.connections|], j)
      && r.connections[j] == chosen.(enabled := false)
      && r.connections[|g.connections|] == ConnectionGene(chosen.inNode, added.id, 1.0, true)
      && r.connections[|g.connections| + 1] == ConnectionGene(added.id, chosen.outNode, chosen.weight, true)
  {
    match d.selector % 5
    case 0 => ToggleConnection(g, d.connection)
    case 1 => PerturbWeight(g, d.connection, d.unit)
    case 2 => ReplaceWeight(g, d.connection, d.unit)
    case 3 => AddConnection(g, d.source, d.target, d.unit)
    case _ => AddNode(g, d.connection)
  }

  /** Toggling the same connection twice gives back the genome. */
  lemma ToggleTwiceRestores(g: Genome, pick: nat)
    requires |g.connections| > 0
    ensures ToggleConnection(ToggleConnection(g, pick), pick) == g
  {
    var once := ToggleConnection(g, pick);
    var twice := ToggleConnection(once, pick);
    assert twice.connections == g.connections;
  }

  /** Replacing the same weight twice keeps only the last draw. */
  lemma ReplaceLastWins(g: Genome, pick: nat, first: real, second: real)
    requires |g.connections| > 0
    requires 0.0 <= first < 1.0 && 0.0 <= second < 1.0
    ensures ReplaceWeight(ReplaceWeight(g, pick, first), pick, second) == ReplaceWeight(g, pick, second)
  {
    var once := ReplaceWeight(g, pick, first);
    assert ReplaceWeight(once, pick, second).connections == ReplaceWeight(g, pick, second).connections;
  }

  /** Two perturbations of one connection add their noises to its weight. */
  lemma PerturbationsAccumulate(g: Genome, pick: nat, first: real, second: real)
    requires |g.connections| > 0
    requires 0.0 <= first < 1.0 && 0.0 <= second < 1.0
    ensures var j := pick % |g.connections|;
      PerturbWeight(PerturbWeight(g, pick, first), pick, second).connections[j].weight
        == g.connections[j].weight + UnitToNoise(first) + UnitToNoise(second)
  {
  }

  /** On a well-formed genome with fewer than 2^32 nodes, add-node's id is used by no node. */
  lemma FreshIdIsUnused(g: Genome)
    requires Wf(g)
    requires |g.nodes| < U32_LIMIT
    ensures FreshId(g) == |g.nodes|
    ensures !HasNode(g.nodes, FreshId(g))
  {
  }

  /** Every operator keeps node ids equal to positions and endpoints existing. */
  lemma MutatePreservesWf(g: Genome, d: Draw)
    requires CanMutate(g, d)
    requires Wf(g)
    requires |g.nodes| < U32_LIMIT
    ensures Wf(Mutate(g, d))
  {
  }

  /** What each operator does to the counts `node_count` and `connection_count` report. */
  lemma MutationCounts(g: Genome, d: Draw)
    requires CanMutate(g, d)
    ensures var r := Mutate(g, d);
      && r.NodeCount() == g.NodeCount() + (if d.selector % 5 == 4 then 1 else 0)
      && r.ConnectionCount() == g.ConnectionCount() + (if d.selector % 5 == 3 then 1 else if d.selector % 5 == 4 then 2 else 0)
  {
  }

  /** Every draw's unit lies in [0, 1). */
  predicate ValidDraws(draws: seq<Draw>) {
    forall k | 0 <= k < |draws| :: 0.0 <= draws[k].unit < 1.0
  }

  /**
    Applies the draws one after another, as the lineage of a genome under
    repeated selection and mutation does. No operator shrinks either list, so
    every operator keeps finding something to pick, and the invariant holds
    throughout while node ids fit in 32 bits.
   */
  function Evolve(g: Genome, draws: seq<Draw>): (r: Genome)
    requires NonEmpty(g)
    requires ValidDraws(draws)
    ensures NonEmpty(r)
    ensures |g.nodes| <= |r.nodes| <= |g.nodes| + |draws|
    ensures |g.connections| <= |r.connections| <= |g.connections| + 2 * |draws|
    ensures Wf(g) && |g.nodes| + |draws| <= U32_LIMIT ==> Wf(r)
    decreases |draws|
  {
    if |draws| == 0 then g
    else
      var next := Mutate(g, draws[0]);
      if Wf(g) && |g.nodes| < U32_LIMIT then
        MutatePreservesWf(g, draws[0]);
        Evolve(next, draws[1..])
      else
        Evolve(next, draws[1..])
  }

  /**
    Every genome reached from a construction with at least one input and one
    output can be mutated again without panicking, and stays well formed.
   */
  lemma ReachableFromNew(g: Genome, inputSize: U32, outputSize: U32, samples: seq<real>, draws: seq<Draw>)
    requires inputSize + outputSize <= U32_LIMIT
    requires |samples| == inputSize * outputSize && Construction.ValidSamples(samples)
    requires Construction.InitialGenome(g, inputSize, outputSize, samples)
    requires inputSize > 0 && outputSize > 0
    requires ValidDraws(draws)
    requires inputSize + outputSize + |draws| <= U32_LIMIT
    ensures NonEmpty(g)
    ensures NonEmpty(Evolve(g, draws)) && Wf(Evolve(g, draws))
  {
    Construction.InitialIsNonEmpty(g, inputSize, outputSize, samples);
    Construction.InitialIsWf(g, inputSize, outputSize, samples);
  }
}

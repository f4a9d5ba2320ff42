/**
  The genome representation of the NEAT engine: node genes, connection genes
  and the genome that owns an ordered list of each, together with the
  structural invariants every genome built by construction and mutation keeps.

  Node ids are unsigned 32-bit integers in the original program, so they are
  modelled as the subset type `U32`; weights are modelled as `real`.
 */
module Genes {

  /** One more than the largest unsigned 32-bit integer. */
  const U32_LIMIT: int := 0x1_0000_0000

  type U32 = x: int | 0 <= x < U32_LIMIT

  /** A node id; unique within a genome and equal to the node's position. */
  type NodeId = U32

  datatype NodeType = Input | Output | Hidden

  datatype NodeGene = NodeGene(id: NodeId, nodeType: NodeType)

  /** A weighted edge from `inNode` to `outNode`; disabled edges are kept. */
  datatype ConnectionGene = ConnectionGene(inNode: NodeId, outNode: NodeId, weight: real, enabled: bool)

  datatype Genome = Genome(nodes: seq<NodeGene>, connections: seq<ConnectionGene>) {

    function NodeCount(): nat {
      |nodes|
    }

    function ConnectionCount(): nat {
      |connections|
    }
  }

  /** Node `k` of the list carries id `k`. */
  predicate IdsArePositions(nodes: seq<NodeGene>) {
    forall k | 0 <= k < |nodes| :: nodes[k].id == k
  }

  /** Both endpoints of every connection name a node of the genome. */
  predicate EndpointsExist(g: Genome) {
    forall j | 0 <= j < |g.connections| ::
      g.connections[j].inNode < |g.nodes| && g.connections[j].outNode < |g.nodes|
  }

  /** The structural invariant kept by construction and by every mutation. */
  predicate Wf(g: Genome) {
    IdsArePositions(g.nodes) && EndpointsExist(g)
  }

  /** Some node of the list carries id `id`. */
  predicate HasNode(nodes: seq<NodeGene>, id: NodeId) {
    exists k | 0 <= k < |nodes| :: nodes[k].id == id
  }

  /**
    Every mutation operator can pick what it needs: a connection for the
    toggle, weight and add-node operators, a node for add-connection.
   */
  predicate NonEmpty(g: Genome) {
    |g.nodes| > 0 && |g.connections| > 0
  }

  /**
    A uniform draw `u` in [0, 1) scaled to a fresh weight in [-1, 1), as
    construction, replace-weight and add-connection do.
   */
  function UnitToWeight(u: real): (w: real)
    requires 0.0 <= u < 1.0
    ensures -1.0 <= w < 1.0
  {
    u * 2.0 - 1.0
  }

  /** A uniform draw `u` in [0, 1) scaled to weight noise in [-0.1, 0.1). */
  function UnitToNoise(u: real): (n: real)
    requires 0.0 <= u < 1.0
    ensures -0.1 <= n < 0.1
  {
    u * 0.2 - 0.1
  }
}

/**
  Construction of the initial genome: `inputSize` input nodes, `outputSize`
  output nodes and one enabled connection from every input to every output,
  laid out row by row (all connections of input 0 first, then of input 1, ...).
  The random weights are the parameter `samples`, one uniform draw in [0, 1)
  per connection, consumed in the order the connections are created.
 */
module Construction {
  import opened Genes

  /** The node that construction places at position `k`. */
  function InitialNode(inputSize: U32, k: U32): NodeGene {
    NodeGene(k, if k < inputSize then Input else Output)
  }

  /** Position `n` of the row-major enumeration of the (input, output) pairs, read back as (row, column). */
  function CellOf(n: nat, inputSize: nat, outputSize: nat): (cell: (nat, nat))
    requires n < inputSize * outputSize
    ensures cell.0 < inputSize && cell.1 < outputSize
    ensures n == cell.0 * outputSize + cell.1
  {
    assert outputSize != 0;
    assert (inputSize - n / outputSize) * outputSize > 0;
    (n / outputSize, n % outputSize)
  }

  /** Enumerating pair (`row`, `column`) and reading its position back gives the pair again. */
  lemma CellOfPair(row: nat, column: nat, inputSize: nat, outputSize: nat)
    requires row < inputSize && column < outputSize
    ensures row * outputSize + column < inputSize * outputSize
    ensures CellOf(row * outputSize + column, inputSize, outputSize) == (row, column)
  {
    PairInRange(row, column, inputSize, outputSize);
    var cell := CellOf(row * outputSize + column, inputSize, outputSize);
    UniqueDivision(row, column, cell.0, cell.1, outputSize);
  }

  /** Every pair has a cell within the enumeration. */
  lemma PairInRange(row: nat, column: nat, inputSize: nat, outputSize: nat)
    requires row < inputSize && column < outputSize
    ensures row * outputSize + column < inputSize * outputSize
  {
    assert row * outputSize + column < (row + 1) * outputSize;
    assert (row + 1) * outputSize <= inputSize * outputSize;
  }

  /** Quotient and remainder by a positive divisor are unique. */
  lemma UniqueDivision(q: int, r: int, q': int, r': int, divisor: int)
    requires 0 <= r < divisor && 0 <= r' < divisor
    requires q * divisor + r == q' * divisor + r'
    ensures q == q' && r == r'
  {
    var d := q - q';
    assert d * divisor == q * divisor - q' * divisor;
    assert d * divisor == r' - r;
    assert d >= 1 ==> d * divisor >= divisor;
    assert d <= -1 ==> d * divisor <= -divisor;
  }

  /** The connection construction appends for pair (`row`, `column`) is the one placed at its cell. */
  lemma PairIsInitialConnection(inputSize: U32, outputSize: U32, samples: seq<real>, row: nat, column: nat)
    requires inputSize + outputSize <= U32_LIMIT
    requires |samples| == inputSize * outputSize && ValidSamples(samples)
    requires row < inputSize && column < outputSize
    ensures row * outputSize + column < inputSize * outputSize
    ensures InitialConnection(inputSize, outputSize, samples, row * outputSize + column)
         == ConnectionGene(row, inputSize + column, UnitToWeight(samples[row * outputSize + column]), true)
  {
    CellOfPair(row, column, inputSize, outputSize);
  }

  /** The connection that construction places at position `n`. */
  function InitialConnection(inputSize: U32, outputSize: U32, samples: seq<real>, n: nat): (c: ConnectionGene)
    requires inputSize + outputSize <= U32_LIMIT
    requires n < inputSize * outputSize == |samples|
    requires 0.0 <= samples[n] < 1.0
    ensures c.inNode < inputSize <= c.outNode < inputSize + outputSize
    ensures c.enabled && -1.0 <= c.weight < 1.0
  {
    var cell := CellOf(n, inputSize, outputSize);
    ConnectionGene(cell.0, inputSize + cell.1, UnitToWeight(samples[n]), true)
  }

  /** The draws are usable as weights: each lies in [0, 1). */
  predicate ValidSamples(samples: seq<real>) {
    forall k | 0 <= k < |samples| :: 0.0 <= samples[k] < 1.0
  }

  /** `connections` is what construction has built once it has placed `|connections|` connections. */
  predicate InitialPrefix(inputSize: U32, outputSize: U32, samples: seq<real>, connections: seq<ConnectionGene>)
    requires inputSize + outputSize <= U32_LIMIT
    requires |samples| == inputSize * outputSize && ValidSamples(samples)
  {
    && |connections| <= inputSize * outputSize
    && forall n | 0 <= n < |connections| :: connections[n] == InitialConnection(inputSize, outputSize, samples, n)
  }

  /** `g` is the genome construction builds from these sizes and draws. */
  predicate InitialGenome(g: Genome, inputSize: U32, outputSize: U32, samples: seq<real>)
    requires inputSize + outputSize <= U32_LIMIT
    requires |samples| == inputSize * outputSize && ValidSamples(samples)
  {
    && |g.nodes| == inputSize + outputSize
    && (forall k | 0 <= k < |g.nodes| :: g.nodes[k] == InitialNode(inputSize, k))
    && |g.connections| == inputSize * outputSize
    && InitialPrefix(inputSize, outputSize, samples, g.connections)
  }

  /** The `inputSize` input nodes followed by the `outputSize` output nodes. */
  method BuildNodes(inputSize: U32, outputSize: U32) returns (nodes: seq<NodeGene>)
    requires inputSize + outputSize <= U32_LIMIT
    ensures |nodes| == inputSize + outputSize
    ensures forall k | 0 <= k < |nodes| :: nodes[k] == InitialNode(inputSize, k)
  {
    nodes := [];
    var i := 0;
    while i < inputSize
      invariant i <= inputSize
      invariant |nodes| == i
      invariant forall k | 0 <= k < |nodes| :: nodes[k] == InitialNode(inputSize, k)
    {
      nodes := nodes + [NodeGene(i, Input)];
      i := i + 1;
    }
    var j := 0;
    while j < outputSize
      invariant j <= outputSize
      invariant |nodes| == inputSize + j
      invariant forall k | 0 <= k < |nodes| :: nodes[k] == InitialNode(inputSize, k)
    {
      nodes := nodes + [NodeGene(inputSize + j, Output)];
      j := j + 1;
    }
  }

  /** Appends the connections of input `row` to every output, in output order. */
  method AppendRow(inputSize: U32, outputSize: U32, samples: seq<real>, row: nat, prefix: seq<ConnectionGene>)
    returns (connections: seq<ConnectionGene>)
    requires inputSize + outputSize <= U32_LIMIT
    requires |samples| == inputSize * outputSize && ValidSamples(samples)
    requires row < inputSize && |prefix| == row * outputSize
    requires InitialPrefix(inputSize, outputSize, samples, prefix)
    ensures |connections| == (row + 1) * outputSize
    ensures InitialPrefix(inputSize, outputSize, samples, connections)
  {
    connections := prefix;
    var column := 0;
    while column < outputSize
      invariant column <= outputSize
      invariant |connections| == |prefix| + column
      invariant InitialPrefix(inputSize, outputSize, samples, connections)
    {
      PairIsInitialConnection(inputSize, outputSize, samples, row, column);
      var next := ConnectionGene(row, inputSize + column, UnitToWeight(samples[|connections|]), true);
      ExtendInitial(inputSize, outputSize, samples, connections, next);
      connections := connections + [next];
      column := column + 1;
    }
    assert |prefix| + outputSize == (row + 1) * outputSize;
  }

  /** Appending the connection construction places next keeps the prefix initial. */
  lemma ExtendInitial(inputSize: U32, outputSize: U32, samples: seq<real>, prefix: seq<ConnectionGene>, next: ConnectionGene)
    requires inputSize + outputSize <= U32_LIMIT
    requires |samples| == inputSize * outputSize && ValidSamples(samples)
    requires |prefix| < inputSize * outputSize
    requires InitialPrefix(inputSize, outputSize, samples, prefix)
    requires next == InitialConnection(inputSize, outputSize, samples, |prefix|)
    ensures InitialPrefix(inputSize, outputSize, samples, prefix + [next])
  {
  }

  /** Every input connected to every output, row by row. */
  method BuildConnections(inputSize: U32, outputSize: U32, samples: seq<real>) returns (connections: seq<ConnectionGene>)
    requires inputSize + outputSize <= U32_LIMIT
    requires |samples| == inputSize * outputSize && ValidSamples(samples)
    ensures |connections| == inputSize * outputSize
    ensures InitialPrefix(inputSize, outputSize, samples, connections)
  {
    connections := [];
    var row := 0;
    while row < inputSize
      invariant row <= inputSize
      invariant |connections| == row * outputSize
      invariant InitialPrefix(inputSize, outputSize, samples, connections)
    {
      connections := AppendRow(inputSize, outputSize, samples, row, connections);
      row := row + 1;
    }
  }

  /**
    Builds the fully connected input-to-output genome as the original does:
    the nodes first, then the connections row by row.
   */
  method New(inputSize: U32, outputSize: U32, samples: seq<real>) returns (g: Genome)
    requires inputSize + outputSize <= U32_LIMIT
    requires |samples| == inputSize * outputSize && ValidSamples(samples)
    ensures InitialGenome(g, inputSize, outputSize, samples)
    ensures g.NodeCount() == inputSize + outputSize
    ensures g.ConnectionCount() == inputSize * outputSize
    ensures Wf(g)
  {
    var nodes := BuildNodes(inputSize, outputSize);
    var connections := BuildConnections(inputSize, outputSize, samples);
    g := Genome(nodes, connections);
    InitialIsWf(g, inputSize, outputSize, samples);
  }

  /** Initial genomes satisfy the structural invariant. */
  lemma InitialIsWf(g: Genome, inputSize: U32, outputSize: U32, samples: seq<real>)
    requires inputSize + outputSize <= U32_LIMIT
    requires |samples| == inputSize * outputSize && ValidSamples(samples)
    requires InitialGenome(g, inputSize, outputSize, samples)
    ensures Wf(g)
  {
  }

  /** With at least one input and one output, every mutation operator can pick what it needs. */
  lemma InitialIsNonEmpty(g: Genome, inputSize: U32, outputSize: U32, samples: seq<real>)
    requires inputSize + outputSize <= U32_LIMIT
    requires |samples| == inputSize * outputSize && ValidSamples(samples)
    requires InitialGenome(g, inputSize, outputSize, samples)
    requires inputSize > 0 && outputSize > 0
    ensures NonEmpty(g)
  {
  }

  /**
    Every (input, output) pair is connected, at its row-major position,
    by an enabled connection weighted with that position's draw.
   */
  lemma InitialConnectsPair(g: Genome, inputSize: U32, outputSize: U32, samples: seq<real>, row: nat, column: nat)
    requires inputSize + outputSize <= U32_LIMIT
    requires |samples| == inputSize * outputSize && ValidSamples(samples)
    requires InitialGenome(g, inputSize, outputSize, samples)
    requires row < inputSize && column < outputSize
    ensures row * outputSize + column < |g.connections|
    ensures g.connections[row * outputSize + column]
         == ConnectionGene(row, inputSize + column, UnitToWeight(samples[row * outputSize + column]), true)
  {
    PairIsInitialConnection(inputSize, outputSize, samples, row, column);
  }

  /** No pair is connected twice: a connection's endpoints determine its position. */
  lemma InitialPairIsUnique(g: Genome, inputSize: U32, outputSize: U32, samples: seq<real>, n: nat)
    requires inputSize + outputSize <= U32_LIMIT
    requires |samples| == inputSize * outputSize && ValidSamples(samples)
    requires InitialGenome(g, inputSize, outputSize, samples)
    requires n < |g.connections|
    ensures g.connections[n].inNode < inputSize <= g.connections[n].outNode
    ensures n == g.connections[n].inNode * outputSize + (g.connections[n].outNode - inputSize)
  {
  }
}

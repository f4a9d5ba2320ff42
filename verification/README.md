# zeeneat genome core in Dafny

This project models the genome of the zeeneat NEAT engine (`src/gene.rs`).
A genome is an ordered list of node genes (input, output, hidden) and an
ordered list of weighted connection genes that can be disabled. The model
covers four parts:

- **construction** (`Genome::new`): the fully connected input-to-output genome, built row by row;
- **evaluation** (`calculate_node`, `calculate_output`): memoized recursion over a graph that may have cycles;
- **mutation**: the five operators (toggle, perturb weight, replace weight, add connection, add node) and the uniform choice between them (`mutate`);
- **counts**: `node_count` and `connection_count`.

Modules:

- `Genes` (`genes.dfy`): node ids as unsigned 32-bit integers, the gene and genome datatypes, and the structural invariant `Wf`. `Wf` says that node `k` carries id `k` and that every connection joins existing nodes.
- `Construction` (`construction.dfy`): `New`, as loops with invariants. It is described by `InitialGenome`: position `n` holds the connection from input `n / outputSize` to output `n % outputSize`.
- `Mutation` (`mutation.dfy`): the operators as pure functions. Each one returns a modified copy, as the original clones the genome.
- `Evaluation` (`evaluation.dfy`): `CalculateNode` and the fold over the incoming connections, `SumIncoming`. They are checked against a direct weighted sum, `DirectSum`, and against small graphs with a cycle and with a node that is reached twice.

The random draws of the original are explicit parameters:

- a uniform draw in [0, 1) is a `real` `unit`;
- the random choice of a list element is a `pick: nat`, and the element taken is `pick % length`;
- the selector of `mutate` is a 32-bit `selector`, reduced modulo 5.

The activation (a sigmoid in the original) is a parameter `act: real -> real`. Weights and values are reals.

The memo keeps the sum before activation. The first evaluation of a node returns the activated value. A later read of the same node through the memo returns the stored raw sum. An evaluator that memoized the activated value would differ; the model follows the code (`src/gene.rs:87-88`), which stores the raw sum. `RevisitReadsRawSum` shows the consequence on a concrete graph.

## Model

| member | source | states |
|---|---|---|
| Construction.New | src/gene.rs:34-58 | builds `inputSize` input nodes, then `outputSize` output nodes, with ids equal to positions; then one enabled connection per (input, output) pair, row by row, each weighted `2u - 1` for its own draw `u`; node count `i + o`, connection count `i * o`, and the result satisfies `Wf` |
| Construction.InitialConnectsPair | src/gene.rs:43-51 | every (input row, output column) pair is joined at position `row * outputSize + column` by an enabled connection with that position's weight |
| Construction.InitialPairIsUnique | src/gene.rs:43-51 | every initial connection goes from an input to an output, and its endpoints determine its position, so no pair is connected twice |
| Construction.CellOf | src/gene.rs:43-47 | position `n` of the row-major enumeration reads back as a row below `inputSize` and a column below `outputSize`, with `n = row * outputSize + column` |
| Construction.CellOfPair | src/gene.rs:43-47 | enumerating a pair and reading its position back gives the same pair (the inverse of `CellOf`) |
| Construction.InitialConnection | src/gene.rs:45-50 | the connection at position `n` runs from an input to an output, is enabled, and has weight in [-1, 1) |
| Construction.InitialIsWf | src/gene.rs:34-58 | a constructed genome satisfies `Wf` |
| Construction.InitialIsNonEmpty | src/gene.rs:34-58 | with at least one input and one output, both lists are non-empty, so every mutation operator can pick something |
| Mutation.ToggleConnection | src/gene.rs:99-104 | only the picked connection changes; it keeps its endpoints and weight, and its enabled flag is negated; nodes are unchanged |
| Mutation.ToggleTwiceRestores | src/gene.rs:99-104 | toggling the same connection twice gives back the original genome |
| Mutation.PerturbWeight | src/gene.rs:106-111 | only the picked connection changes; its weight moves by `0.2u - 0.1`, which stays within 0.1 of the old weight; endpoints and flag are kept |
| Mutation.PerturbationsAccumulate | src/gene.rs:106-111 | two perturbations of the same connection add both noises to its weight |
| Mutation.ReplaceWeight | src/gene.rs:113-118 | only the picked connection changes; its weight becomes `2u - 1`, in [-1, 1); endpoints and flag are kept |
| Mutation.ReplaceLastWins | src/gene.rs:113-118 | replacing the same weight twice is the same as replacing it once with the second draw |
| Mutation.AddConnection | src/gene.rs:120-133 | appends exactly one enabled connection, with weight `2u - 1` (in [-1, 1)), between the ids of two existing nodes (possibly the same node, possibly an existing pair); everything else is kept |
| Mutation.AddNode | src/gene.rs:135-159 | disables the picked connection and keeps its endpoints and weight; appends a hidden node with id equal to the old node count modulo 2^32; appends a connection from the old source to the new node with weight 1 and one from the new node to the old target with the old weight |
| Mutation.FreshIdIsUnused | src/gene.rs:139-142 | in a well-formed genome with fewer than 2^32 nodes, the new node's id equals the node count and no existing node carries it |
| Mutation.Mutate | src/gene.rs:161-170 | `selector % 5` chooses exactly one operator and the result is fixed completely. 0 negates the picked connection's flag, 1 adds `0.2u - 0.1` to its weight and 2 sets its weight to `2u - 1`; these three change nothing else. 3 keeps everything and appends the enabled connection between the two picked nodes with weight `2u - 1`. 4 keeps all other connections, disables the picked one with its weight kept, appends a hidden node with id `node count mod 2^32`, then the connections (source → new, weight 1) and (new → target, old weight). No selector removes a node |
| Mutation.MutatePreservesWf | src/gene.rs:161-170 | every operator keeps `Wf` while the node count stays below 2^32 |
| Mutation.MutationCounts | src/gene.rs:172-178 | how each operator changes `node_count` (+1 for add node) and `connection_count` (+1 for add connection, +2 for add node, unchanged otherwise) |
| Mutation.Evolve | src/gene.rs:161-170 | repeated mutation never empties either list, grows nodes by at most one and connections by at most two per draw, and keeps `Wf` while ids fit in 32 bits |
| Mutation.ReachableFromNew | src/gene.rs:34-58 | every genome reached from a construction with at least one input and one output by any sequence of mutations is non-empty and well formed |
| Evaluation.CalculateNode | src/gene.rs:79-90 | a memoized node returns its memo value and leaves the memo alone; otherwise the result is the activation of the value the memo then holds for the node; the memo only gains keys and always gains the node; termination holds on every graph, cyclic or not |
| Evaluation.CalculateNodeMemoizesSources | src/gene.rs:79-90 | evaluation memoizes nothing but the node itself and sources of connections |
| Evaluation.CalculateNodeKeepsMemo | src/gene.rs:79-90 | evaluation never changes a value that is already memoized, so seeded inputs keep their values |
| Evaluation.SumIncomingOfKnownInputs | src/gene.rs:81-86 | when every enabled connection into the node starts at a memoized node, the fold adds exactly the direct weighted sum and leaves the memo unchanged |
| Evaluation.CalculateNodeOfKnownInputs | src/gene.rs:79-90 | a node whose inputs are all known (itself read as the provisional 0) evaluates to `act` of the direct weighted sum, and the memo records that sum before activation |
| Evaluation.CalculateOutput | src/gene.rs:92-97 | the output is the activation of the value memoized for node 2 after evaluating it from the seeds `0 -> a`, `1 -> b` |
| Evaluation.OutputInActivationRange | src/gene.rs:92-97 | whatever the genome, the output lies in the range of the activation |
| Evaluation.XorOutputsInUnitInterval | src/gene.rs:65-72 | with an activation into (0, 1), all four XOR-table outputs that the fitness sums lie in (0, 1) |
| Evaluation.InitialOutput | src/gene.rs:34-58 | on a freshly built two-input genome, the output is `act(a * w0 + b * w1)`, where `w0` and `w1` are the weights of the connections from inputs 0 and 1 to node 2 |
| Evaluation.CycleReadsProvisionalZero | src/gene.rs:80-88 | on a graph where node 2 and hidden node 3 feed each other, evaluation terminates and the back edge reads the provisional 0, so its weight does not matter |
| Evaluation.RevisitReadsRawSum | src/gene.rs:80-88 | when node 3 feeds node 2 twice, the first edge receives `act(sum)` and the second receives the memoized raw `sum` |

## Left out

- The sigmoid (`crate::sigmoid`) is not part of this model. It is the parameter `act`, and range facts assume an activation into (0, 1).
- Random number generation (`rand`) is replaced by explicit draws. Picks are `pick % length` over unbounded naturals, so uniformity is not modelled.
- Floating point: `f64` weights and sums are modelled as exact reals. Rounding, NaN and infinities are not modelled, and neither is the order-dependent rounding of the fold.
- The `println!` of the initial connections (line 53) is I/O and is left out.
- `calculate_fitness` (lines 60-77): only its four calls of `calculate_output` are modelled (`XorOutputs`). The absolute errors and `1 / (total + 1e-18)` are floating point and are left out.
- `src/neat.rs` (population, selection, the generation loop) is not part of this model. `Evolve` only applies a sequence of mutations.
- Construction.New: requires `inputSize + outputSize <= 2^32`. Above that, the `input_size + i` at line 40 overflows a `u32`, which the original would reject or wrap depending on the build.
- Mutation.ToggleConnection, Mutation.PerturbWeight, Mutation.ReplaceWeight, Mutation.AddNode: require a non-empty connection list, and Mutation.AddConnection requires a non-empty node list. The original panics at `unwrap()` there, so those calls are excluded rather than modelled as an error.
- Mutation.AddNode: beyond 2^32 nodes the fresh id wraps (`FreshId` truncates it), so it can repeat an existing id. `MutatePreservesWf` and `Evolve` therefore assume fewer than 2^32 nodes.
- `node_count` and `connection_count` return `usize`. They are modelled as unbounded `nat` (`Genome.NodeCount`, `Genome.ConnectionCount`).
- Running time is not modelled. Each node expanded outside the memo scans the whole connection list (line 81), so one evaluation costs O(nodes × connections); the model proves termination and the bound on memoized keys, not this cost.

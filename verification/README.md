# A verified model of the computation-graph IR

The repository is the intermediate representation of a graph engine: nodes with
data and control anchors, algorithms that rewrite and traverse graphs of them,
propagation of tensor formats and shapes, storage of graphs as messages, and the
building of graphs from user-level operators. This project models its algorithms
in Dafny and proves what they are for.

All components share one state. A graph is a map from ports (an anchor's kind,
node and index) to peer lists, in list order and with repetitions (module
`Links`). Classes hold the mutable objects, `Anchor`, `ComputeGraph`,
`RefRelations`, `FormatRefiner`, `ModelSerializeImp`, `OperatorImpl`,
`GraphBuilderImpl`, `PortTable`, `ParentNode` and `ShapeRefiner`, and their
methods are proved against functions and predicates on such values, about which
the lemmas speak.

The main results, by component:

- Links. Every run of link, unlink, unlink-all and replace operations keeps the
  peer lists mirrored. UnlinkAll terminates exactly when every mention of a peer
  is answered by that peer.
- Sorting. Both sorts count in-edges at the in-anchors and decrement through the
  out-anchors, with 32-bit counters and with loop edges decremented though never
  counted. They emit every node once, in an order of all counted edges, if and
  only if the counted edges have no cycle, provided every data consumer of a
  NextIteration node reaches that node, as without such nodes it does. Nested
  graphs are flattened in preorder and numbered so that subgraph nodes come above
  the node that owns them. The user's input order is met if and only if no listed
  input has behind it a later one and then one in between.
- Isolation. IsolateNode only bridges ways through the node: no new way between
  two nodes and so no new cycle arises, whatever the links are.
- Events. Moving Send and Recv nodes permutes the list. It keeps a topological
  order if and only if, in the list as it was, no other successor of a Recv stands
  before its first one and no other predecessor of a Send behind its first one,
  given that no Recv releases another event and no Send waits for one.
- Formats. The worklist terminates on every graph and ends in a closed fixpoint.
- Aliases. Branch operators get a partition. For loops the lookup gives the whole
  class of identified positions exactly when from each of them a chain of pairs,
  in the order of the NetOutput's inputs, leads to the last; a body that hands
  position 2 on at 0 and position 0 on at 1 does not meet this.
- Storage. Writing a graph and reading the message gives a copy of it, for names
  with colons too; links between data and control anchors and repeated outputs are
  lost.
- Building. One node per operator that links lead to; edges are added if and only
  if no data input is linked twice.
- Port layout. Dynamic ports end up where they were registered if and only if no
  port without tensors precedes one with tensors.
- Shapes. The join of branch shapes is the least upper bound except for one
  mixture of unknown rank and one-dimensional tensors, and never depends on the
  order of branches of one element type; overflow tests are exact;
  broadcasting is commutative, associative and idempotent, failure included.

Where the code does not do what its comments suggest, the model follows the code:
the user input order of SortNodes can leave three inputs unsorted, an input that
is set twice is recorded at both sources, links between data and control anchors
are not written, and dynamic ports with no tensors still take up a position.

Modules by source file: `Links`, `Anchors` (graph/anchor.cc); `Degrees`,
`TopoOrder`, `Targets`, `InputsOrder`, `ComputeGraphs`, `TopoMeaning`, `Flatten`,
`NestedSort`, `Rewiring`, `Moving`, `Isolation`, `Dropping`, `IsolateNodes`,
`EventNodes` (graph/compute_graph.cc); `RefPositions`, `RefRelations`
(graph/ref_relation.cc); `Formats`, `FormatRefiners` (graph/format_refiner.cc);
`NodeIndex`, `EdgeTexts`, `Serialization`, `AttrLists` (graph/model_serialize.cc); `Operators`,
`GraphBuilders`, `BuilderEdges` (graph/operator.cc); `OpDescs`
(graph/op_desc.cc); `PortLayout`, `DynamicPorts` (register/register.cpp);
`Products` (graph/tensor.cc); `BroadCast` (ops/op_imp.cpp); `BranchShapes`,
`ShapeFlow` (graph/shape_refiner.cc).

Taken as parameters: format functions of operators, tensor counts of dynamic
ports, the index tags of Data nodes and NetOutput inputs, and the varying Data
nodes of a loop body.

`dafny verify dfyconfig.toml` checks the project.

## Model

| member | source | states |
|---|---|---|
| `Anchors.Anchor.LinkTo` | graph/anchor.cc:208-216 | A link is refused only when a data output meets an occupied data input; otherwise each end is appended to the other end's peers and every other peer list stays |
| `Anchors.Anchor.Unlink` | graph/anchor.cc:62-85 | Succeeds exactly when each end lists the other; then one mention disappears at both ends, the first one, and a refusal changes nothing |
| `Anchors.Anchor.ReplacePeer` | graph/anchor.cc:87-111 | Refused without effect unless the old edge is recorded at both ends; otherwise the two new peers stand where the old ones stood and are told so, in the order of the four writes |
| `Anchors.ReplacedCounts` | graph/anchor.cc:87-111 | ReplacePeer trades the old edge for exactly the two new ones, also when the second new peer is this anchor or the first one; the multiplicity of every other pair of anchors is what it was |
| `Anchors.Anchor.UnlinkAll` | graph/anchor.cc:51-60 | With every mention answered by the peer, the loop that retries the first peer ends, with an empty list |
| `Anchors.ClearedCounts` | graph/anchor.cc:51-60 | After UnlinkAll each peer has lost exactly its mentions of the anchor and no other multiplicity has changed |
| `Anchors.UnlinkAllEndsIff` | graph/anchor.cc:51-60 | Some number of turns empties the list if and only if each peer lists the anchor at least as often as the anchor lists it; one missing back mention makes the loop run for ever |
| `Anchors.RunKeepsSymmetry` | graph/anchor.cc:51-111 | Every run of link, unlink, unlink-all and replace operations, from any state with mirrored peer lists, ends in a state with mirrored peer lists over the same anchors |
| `Anchors.Anchor.IsLinkedWith` | graph/anchor.cc:113-120 | Tells whether an equal anchor is among the peers |
| `Anchors.Anchor.GetPeerInDataAnchors` | graph/anchor.cc:175-184 | Exactly the data inputs among the peers, in order and with repetitions |
| `Anchors.Anchor.GetPeerInControlAnchors` | graph/anchor.cc:197-206 | Exactly the control inputs among the peers, in order and with repetitions |
| `Anchors.Anchor.GetPeerOutControlAnchors` | graph/anchor.cc:271-280 | Exactly the control outputs among the peers, in order and with repetitions |
| `Anchors.Anchor.GetPeerOutDataAnchors` | graph/anchor.cc:282-291 | Exactly the data outputs among the peers, in order and with repetitions |
| `Links.LinkedKeeps` | graph/anchor.cc:145-154 | Linking an out anchor to an in anchor keeps the peer lists mirrored and typed |
| `Links.UnlinkedKeeps` | graph/anchor.cc:62-85 | Unlinking keeps the peer lists mirrored and typed |
| `ComputeGraphs.ComputeGraph.AddNode` | graph/compute_graph.cc:317-329 | The new node comes last, with all its anchors and no edge, and the rest of the graph keeps its edges |
| `ComputeGraphs.ComputeGraph.AddInputNode` | graph/compute_graph.cc:331-341 | The node is appended to the graph inputs, repetitions included; a node the graph did not have joins its nodes, numbered with their count |
| `ComputeGraphs.ComputeGraph.AddOutputNodeByIndex` | graph/compute_graph.cc:347-373 | The output is appended unless a node of that name is already listed with that index; a node the graph did not have joins its nodes either way |
| `ComputeGraphs.ComputeGraph.GetInEdgeSize` | graph/compute_graph.cc:1009-1035 | The number of in-edges, data edges that leave a NextIteration node aside |
| `Degrees.InEdgeSizeCounts` | graph/compute_graph.cc:1009-1035 | That number is the sum, over all nodes of the graph, of the counted edges they send |
| `ComputeGraphs.ComputeGraph.GetOutEdgeSize` | graph/compute_graph.cc:1037-1058 | The number of out-edges, control edges only for a NextIteration node, and 0 when the sum would overflow |
| `Degrees.WeightSplits` | graph/compute_graph.cc:742-856 | What the sorts decrement through m's out-anchors is what n's in-anchors count from m plus the uncounted loop edges: the two views of an edge agree because peer lists are mirrored |
| `ComputeGraphs.ComputeGraph.SortNodes` | graph/compute_graph.cc:951-1007 | Refuses exactly when the isolated-node check is on and fires; otherwise the start stack and counters establish the sorting invariant, and the stack is the special nodes followed by the data nodes after one pass of the user input order |
| `InputsOrder.InputsOrderIff` | graph/compute_graph.cc:986-1005 | For inputs of different names: the pass puts the listed ones in the user's order, emitted from the end, if and only if no listed node has behind it a later one and then one in between |
| `InputsOrder.OuterPermutes` | graph/compute_graph.cc:986-1005 | Whatever the order, the pass permutes the stack |
| `InputsOrder.ThreeInputs` | graph/compute_graph.cc:986-1005 | A stack with the inputs 0, 2, 1 becomes 1, 2, 0 and so is not sorted |
| `TopoOrder.StartInv` | graph/compute_graph.cc:963-984 | With the nodes without counted in-edges pending and the counters at the in-edge sizes, the sorting invariant holds |
| `TopoOrder.StepInv` | graph/compute_graph.cc:757-792 | Emitting any pending node and decrementing every target, loop targets included, keeps the invariant: counters are the wrapped 32-bit balances, a node is reached exactly once, and with returning loops predecessors come first |
| `TopoOrder.LoopReturned` | graph/compute_graph.cc:1014-1033 | When loops return, every data consumer of an emitted NextIteration node has been emitted already, so the extra decrement only wraps a counter that is no longer looked at |
| `TopoOrder.EndInv` | graph/compute_graph.cc:920-938 | With nothing pending: acyclic counted edges mean that every node was emitted; with returning loops a complete emission is in topological order and the counted edges are acyclic |
| `ComputeGraphs.ComputeGraph.DFSTopologicalSorting` | graph/compute_graph.cc:742-795 | The stack loop, in either push order, ends with the invariant and nothing pending |
| `ComputeGraphs.ComputeGraph.BFSTopologicalSorting` | graph/compute_graph.cc:797-828 | The queue loop ends with the same invariant and nothing pending, when nodes that one node can make ready together have different names |
| `ComputeGraphs.ComputeGraph.CollectBreadthOutNode` | graph/compute_graph.cc:830-856 | Every target is decremented once per edge and the nodes that became ready are collected once each, by name |
| `ComputeGraphs.ComputeGraph.TopologicalSortingGraph` | graph/compute_graph.cc:904-949 | Success: the list is a permutation and ids are positions. With returning loops, and so whenever there is no NextIteration node, it succeeds if and only if the counted edges are acyclic and the isolation check does not fire, and then every counted edge goes to a larger id. Failure leaves list and ids alone and happens only on a cycle or an isolated node |
| `TopoOrder.NoLoopsReturn` | graph/compute_graph.cc:1037-1058 | Without NextIteration nodes the condition on loops holds in every graph |
| `TopoMeaning.FeedsMeaning` | graph/compute_graph.cc:1014-1033 | In every state, n has a counted edge from m exactly when some entry of some in-anchor of n comes from m and is not the first peer of a data input with m a NextIteration node |
| `TopoMeaning.CountedUnlessLoop` | graph/compute_graph.cc:1014-1033 | When data sources stand first at their inputs, exactly the data edges that leave a NextIteration node are not counted |
| `TopoMeaning.LinkedKeepsFirst` | graph/anchor.cc:145-154 | Linking keeps data sources first |
| `TopoMeaning.UnlinkedKeepsFirst` | graph/anchor.cc:62-85 | Unlinking keeps data sources first |
| `TopoMeaning.ReachesIffPath` | graph/compute_graph.cc:757-792 | Reaching along counted edges is having a path of counted edges |
| `TopoMeaning.AcyclicIffNoCycle` | graph/compute_graph.cc:920-938 | The condition under which the sorts succeed is that no closed path of counted edges exists |
| `NestedSort.AllGraphNodes` | graph/compute_graph.cc:75-101 | For finite nesting the deque loop terminates and yields the recursive preorder flattening, and exactly the list of named subgraphs in the order they are met, once per mention |
| `Flatten.DequeStep` | graph/compute_graph.cc:79-98 | Emitting the first candidate and putting its subgraphs' nodes in front of the rest does not change the flattening |
| `Flatten.NodesKeepOrder` | graph/compute_graph.cc:79-98 | The direct nodes of a graph keep their relative order in the flattening |
| `Flatten.SubgraphInNodes` | graph/compute_graph.cc:79-98 | A subgraph named by a flattened node appears whole, in one piece, behind that node |
| `Flatten.FlattenPermuted` | graph/compute_graph.cc:879-895 | Reordering the nodes inside the root and inside every subgraph only permutes the flattening |
| `NestedSort.SortSubgraphs` | graph/compute_graph.cc:879-888 | Success: every subgraph is sorted, none has an isolated node under the check and, with returning loops, none has a cycle. Failure: some subgraph is refused for a cycle or an isolated node. Links are untouched |
| `NestedSort.Renumber` | graph/compute_graph.cc:890-895 | Numbering the flattened nodes gives 0 to n-1, keeps counted edges increasing inside each graph and puts every subgraph node above the node that owns the subgraph |
| `NestedSort.TopologicalSorting` | graph/compute_graph.cc:867-902 | The whole sort of a nested graph: success gives that numbering over a permutation of the previous flattening, excludes cycles and isolated nodes in the root and in every subgraph, and replaces the list of subgraphs by those met when the numbers agree; refusal names a cycle or an isolated node in the root or a subgraph |
| `Rewiring.LinkRewired` | graph/compute_graph.cc:1158-1208 | A new edge p to q is a shortcut of p to v to q: adding it keeps the graph a rewiring of the original around v |
| `Rewiring.UnlinkRewired` | graph/compute_graph.cc:1150-1154 | Removing an edge that touches v keeps the graph a rewiring of the original around v |
| `Rewiring.AdjacentAfter` | graph/compute_graph.cc:1145-1221 | Two nodes adjacent after rewiring around v were adjacent before, or connected through v |
| `Rewiring.WalksAreOld` | graph/compute_graph.cc:1145-1221 | Every walk after rewiring was a walk before, with detours through v: no new reachability and no new cycle |
| `Isolation.CutInputs` | graph/compute_graph.cc:1149-1183 | The loop over the data inputs: all cut, and the consumers of v hang on the first connected non-constant source, if there is one |
| `Moving.MovePeers` | graph/compute_graph.cc:1158-1181 | Handing peers of one output over to another: each leaves the one and joins the other, in any state a rewiring remains, and without control-to-data links nothing else changes |
| `IsolateNodes.ForwardControls` | graph/compute_graph.cc:1185-1208 | Control predecessors are cut off and the first of them takes over v's control consumers; data inputs are untouched |
| `IsolateNodes.BridgeControlInput` | graph/compute_graph.cc:1210-1218 | Data sources of the control input are cut off, each now preceding all former successors of v |
| `Dropping.RemoveExtraOutEdge` | graph/compute_graph.cc:1223-1245 | Nothing leaves v afterwards, data inputs still fed by v are left unconnected, edges elsewhere stay |
| `IsolateNodes.IsolateNode` | graph/compute_graph.cc:1145-1221 | Always a rewiring around v: edges away from v survive and each new one shortcuts v. Without control-to-data links it succeeds: v has no edge, its data consumers are re-fed from the first connected non-constant data input or left unconnected, every consumer is taken over by that source (or else the control consumers by the first control predecessor), and data sources of the control input precede all former successors |
| `IsolateNodes.GetOutAllNodes` | graph/node.cc:716-743 | The owners of all peers of all out-anchors, data peers before control peers at each data output |
| `EventNodes.ReorderEventNodes` | graph/compute_graph.cc:659-692 | Throws exactly when some Recv or Send has no partner, at the first one and after erasing it; otherwise the list is the reordered permutation and the graph stays valid |
| `EventNodes.MoveEvent` | graph/compute_graph.cc:667-688 | A Recv is moved before the first node it releases, a Send behind the first node it waits for; without such a node the event is erased and the look-up throws |
| `EventNodes.ReorderPermutes` | graph/compute_graph.cc:659-692 | Whatever the partners, reordering keeps the nodes, each once |
| `EventNodes.ReorderKeepsOrder` | graph/compute_graph.cc:659-692 | If every event fits when its turn comes (no other successor of a Recv before the partner, no other predecessor of a Send behind it), the topological order is kept throughout |
| `EventNodes.StepOrderIff` | graph/compute_graph.cc:667-688 | One move keeps a topological order if and only if the event fits in the list as it is then |
| `EventNodes.ReorderOrderIff` | graph/compute_graph.cc:659-692 | When no Recv releases another event and no Send waits for one, the run keeps a topological order if and only if every event fits in the list as it was at the start |
| `EventNodes.ReorderGraphIff` | graph/compute_graph.cc:659-692 | The same for the edges of a graph, all of them or those the sorts count |
| `EventNodes.OvertakenSuccessor` | graph/compute_graph.cc:667-677 | A Recv with two successors, the first partner behind the other one, ends behind a node it releases: the order is lost |
| `EventNodes.RepairedOrder` | graph/compute_graph.cc:659-692 | Where a Recv releases another Recv, a later move can repair what an event that does not fit has broken |
| `EventNodes.BrokenOrder` | graph/compute_graph.cc:659-692 | Where a Recv releases a Send, the order can be lost although every event fits at the start |
| `EventNodes.MoveKeeps` | graph/compute_graph.cc:667-688 | Moving one node keeps the relative order of all others |
| `EventNodes.BeforePartner` | graph/compute_graph.cc:667-677 | A Recv that stood before its partner still does and stays behind everything it stood behind |
| `EventNodes.BehindPartner` | graph/compute_graph.cc:678-688 | A Send that stood behind its partner still does and stays before everything it stood before |
| `EventNodes.GetOutControlNodes` | graph/node.cc:691-714 | The control consumers of the data outputs, in order, and then those of the control output |
| `EventNodes.GetInControlNodes` | graph/node.cc:620-631 | The control predecessors of the control input, in order |
| `RefRelations.RefRelations.BuildRefRelationsForBranch` | graph/ref_relation.cc:111-166 | One block per input position (the operator's input and both ends of its Data nodes), then one per output position (the output and the NetOutput inputs) |
| `RefRelations.RefRelations.BuildRefRelationsForWhile` | graph/ref_relation.cc:184-278 | One block per position, input, output, Data and NetOutput cells together; positions that the NetOutput met last hands on unchanged are joined, in the order of its inputs |
| `RefRelations.RefRelations.BuildLookUpTables` | graph/ref_relation.cc:168-182 | From an empty table: every cell of every block is found, and answered with the last block that holds it |
| `RefRelations.RefRelations.LookUpRefRelations` | graph/ref_relation.cc:53-66 | The cells of the block entered for the key, none for an unknown key |
| `RefRelations.RefRelations.BuildRefRelations` | graph/ref_relation.cc:403-460 | Succeeds exactly when the boundary of every function operator is tagged within range; then its blocks follow those kept before and the table answers for all of them, and on failure the table stays and the blocks of the operators ahead are kept |
| `RefRelations.RefRelations.Clear` | graph/ref_relation.cc:68-73 | Forgets all blocks and the table |
| `RefRelations.RefRelations.BlocksFor` | graph/ref_relation.cc:403-453 | The boundary of one operator is collected and classified by the index tags; fails exactly on a Data node without a tag or a tag out of range, otherwise gives the blocks of the positions |
| `RefPositions.GetDataAndNetoutputOfSubGraph` | graph/ref_relation.cc:297-327 | The Data and NetOutput nodes of the subgraphs that exist, without the NetOutput of a loop's condition |
| `RefPositions.ProcessSubgraphDataNodes` | graph/ref_relation.cc:344-372 | Succeeds exactly when every Data node is tagged below the size; then position i holds those tagged i, later ones first |
| `RefPositions.ProcessSubgraphNetoutput` | graph/ref_relation.cc:374-401 | Succeeds exactly when no tag is out of range; then position i holds the inputs tagged i, in order, and untagged ones are left out |
| `RefPositions.FuncBoundary` | graph/ref_relation.cc:297-401 | Whatever stands at a position is a Data node or NetOutput input of a subgraph of the operator that carries this position as its tag |
| `RefRelations.NestedOneOwner` | graph/ref_relation.cc:403-460 | In a graph whose subgraphs belong to one operator each, no node belongs to the boundaries of two operators |
| `RefRelations.BranchTable` | graph/ref_relation.cc:403-460 | In such a graph the table built from empty answers a cell of a branch operator with exactly the cells of its position |
| `RefRelations.TableReflexive` | graph/ref_relation.cc:168-182 | Whatever is found contains the key itself |
| `RefRelations.PartitionLookup` | graph/ref_relation.cc:168-182 | On disjoint blocks a lookup is the one block of the cell |
| `RefRelations.BranchApart` | graph/ref_relation.cc:111-166 | The blocks of a branch operator share no cell |
| `RefRelations.LoopApart` | graph/ref_relation.cc:184-278 | The blocks of a loop share no cell before they are joined |
| `RefRelations.LookupOfOwner` | graph/ref_relation.cc:403-460 | With every node owned by one operator, a cell is answered from its own operator's blocks |
| `RefRelations.BranchLookup` | graph/ref_relation.cc:111-166 | For branch operators the lookup answers exactly the cells of the position, a block of a partition |
| `RefRelations.JoinedSpans` | graph/ref_relation.cc:251-274 | A joined block holds the cells of exactly the positions it has absorbed |
| `RefRelations.LoopLookup` | graph/ref_relation.cc:184-278 | For a loop, a lookup finds the cell itself and only cells of positions that the pairs identify with it |
| `RefRelations.LoopLookupExact` | graph/ref_relation.cc:184-278 | All lookups within a class of positions give the whole class if and only if from each of its positions a chain of pairs, standing later and later in the list, leads to the last position |
| `RefRelations.AbsorbedIff` | graph/ref_relation.cc:251-274 | A position has absorbed another exactly when such a chain climbs from the other one to it |
| `RefRelations.SmallClasses` | graph/ref_relation.cc:251-274 | Classes of at most two positions always meet that condition |
| `RefRelations.ThreePositionsFall` | graph/ref_relation.cc:251-274 | A loop operator with three inputs whose body hands position 2 on at 0 and position 0 on at 1: all three are one class, and looking up its third input misses the second |
| `RefRelations.CrossedPairs` | graph/ref_relation.cc:251-274 | Such a body gives exactly these pairs |
| `Formats.DefaultInferFormat` | graph/op_desc.cc:884-923 | Every ND origin gets the first non-ND output format, or else the first non-ND input format, in both format fields |
| `Formats.DefaultIsLawful` | graph/op_desc.cc:884-923 | It never takes a format back and invents none; afterwards either all origins are ND or none is |
| `FormatRefiners.FormatRefiner.ReflectionProcess` | graph/format_refiner.cc:50-73 | Every slot of the class takes the format and every owner is queued, nobody else |
| `FormatRefiners.FormatRefiner.InferOriginFormat` | graph/op_desc.cc:1354-1362 | The node's own function or the default one changes only this node's slots, and lawfully |
| `FormatRefiners.FormatRefiner.InferPeer` | graph/format_refiner.cc:256-305 | At the other end of an edge: an inferred or exempt slot is left alone, an aliased one takes the format together with its class, another alone with what its node infers; every push is paid for by a slot that leaves ND |
| `FormatRefiners.FormatRefiner.BackInferProcess` | graph/format_refiner.cc:229-308 | After success no input of the node is still owed to its source |
| `FormatRefiners.FormatRefiner.ForwardInferProcess` | graph/format_refiner.cc:309-389 | After success no output of the node is still owed to a consumer |
| `FormatRefiners.FormatRefiner.AnchorProcess` | graph/format_refiner.cc:205-228 | Terminates on every graph, cyclic ones included, by the number of ND slots and then the queue length; no slot returns to ND and after success nothing is owed to a neighbour |
| `FormatRefiners.FormatRefiner.RefreshOriginFormatOfAnchor` | graph/format_refiner.cc:391-410 | ND and reserved origins of the anchors' slots become the slot's format; nothing else changes |
| `FormatRefiners.FormatRefiner.GetAnchorPoints` | graph/format_refiner.cc:138-204 | Exactly the nodes with a real format at some slot, and the Data nodes with inputs |
| `FormatRefiners.FormatRefiner.DataNodeFormatProcess` | graph/format_refiner.cc:412-463 | Restarting from the Data nodes that nothing reached keeps what was inferred and again leaves nothing owed |
| `FormatRefiners.FormatRefiner.InferOrigineFormat` | graph/format_refiner.cc:465-513 | The result is a closed fixpoint: if no node but the anchor points had an origin format, then after success every data edge whose output is known has its input known or exempt, and the other way round unless a control link stands in front of the data source; slots outside the region are unchanged |
| `Formats.NothingWaiting` | graph/format_refiner.cc:205-389 | With nothing queued and no slot unsettled, every data edge is closed in both directions, exempt ends and hidden sources aside |
| `Formats.WaitingGrows` | graph/format_refiner.cc:229-389 | Lawful changes whose owners are queued keep every unsettled slot accounted for |
| `Formats.Pays` | graph/format_refiner.cc:50-73 | A slot that leaves ND makes the set of ND slots strictly smaller |
| `NodeIndex.ParseOfText` | graph/model_serialize.cc:35-45 | Parsing name, colon, number gives back name and number, for every name, colons included, and every 32-bit number |
| `NodeIndex.ParseFails` | graph/model_serialize.cc:35-45 | A text is refused exactly when it has no colon |
| `NodeIndex.TextInjective` | graph/model_serialize.cc:59-87 | Two references are printed alike only when they are the same |
| `NodeIndex.StrTolOfToString` | graph/model_serialize.cc:42-43 | Reading a printed long gives the same long |
| `Serialization.ModelSerializeImp.SerializeEdge` | graph/model_serialize.cc:59-87 | One text per data input, empty when it has no data source, then one per control predecessor |
| `Serialization.ModelSerializeImp.SerializeGraph` | graph/model_serialize.cc:182-215 | Name, graph inputs and outputs and, in order, one message per node with its edges |
| `Serialization.ModelSerializeImp.UnserializeNode` | graph/model_serialize.cc:372-396 | A new unlinked node with the stored shape, requests for its stored edges behind the earlier ones, and the name bound to it |
| `Serialization.ModelSerializeImp.UnserializeGraphWithoutEdge` | graph/model_serialize.cc:535-566 | A valid graph without edges, one node per message in order; requests, name map and references are those of the whole message |
| `Serialization.ModelSerializeImp.HandleNodeNameRef` | graph/model_serialize.cc:398-459 | Succeeds exactly when every node and anchor referred to exists; then all requests are linked in order, graph inputs and outputs are set and the pending state is cleared |
| `Serialization.ModelSerializeImp.UnserializeGraph` | graph/model_serialize.cc:568-578 | Succeeds exactly when every reference in the message resolves; then nodes, edges, inputs and outputs are those the message describes |
| `EdgeTexts.RequestsOfTexts` | graph/model_serialize.cc:382-393 | Reading a node's texts asks for exactly its edges: slot by slot the data source, unconnected slots kept, and the control predecessors in order |
| `EdgeTexts.LinkAllIns` | graph/model_serialize.cc:398-424 | Linking requests between unlinked anchors gives every in-anchor exactly the sources asked for, in order |
| `EdgeTexts.RoundTrip` | graph/model_serialize.cc:59-87 | Linking what the texts of a graph ask for, between bare copies of its nodes, gives every copy the data sources and control predecessors of its original, whatever the links are |
| `EdgeTexts.EdgesBack` | graph/model_serialize.cc:398-424 | Every control edge, and every data edge into an input with nothing else linked to it, comes back with its multiplicity |
| `EdgeTexts.ControlsBack` | graph/model_serialize.cc:76-85 | All control inputs come back whole if and only if no data output is linked to a control input |
| `EdgeTexts.DataBack` | graph/model_serialize.cc:63-75 | All data inputs come back whole if and only if each has at most one peer, a data output |
| `Serialization.EdgesReadBack` | graph/model_serialize.cc:398-424 | Whatever SerializeGraph wrote for a graph with unique names resolves, and links every copy like its original |
| `Serialization.GraphReadBack` | graph/model_serialize.cc:182-215 | Reading back what was written succeeds, with the same sources per input, the same graph inputs and, repeated ones aside, the same graph outputs |
| `Serialization.ListedWhole` | graph/compute_graph.cc:351-368 | Listing the outputs one by one gives the whole list exactly when none is repeated |
| `Serialization.ModelSerializeImp.WriteAndRead` | graph/model_serialize.cc:182-578 | SerializeGraph followed by UnserializeGraph always succeeds, for unique names and ends inside the graph, and gives a valid copy: same names, kinds, sizes, subgraphs and ids in order, same sources at every in-anchor, same graph inputs and outputs |
| `AttrLists.OpDescToAttrDef` | graph/model_serialize.cc:135-164 | Two lists that name every key once, next to its value |
| `AttrLists.AttrDefToOpDesc` | graph/model_serialize.cc:260-291 | Lists of one length are entered one by one, the first entry of a key staying; lists of different lengths are left out |
| `AttrLists.NameIndexRoundTrip` | graph/model_serialize.cc:135-164 | The map read back from the lists is the map that was written |
| `Operators.OperatorImpl.UpdateLinkMapImpl` | graph/operator.cc:422-430 | The link is recorded last at its output |
| `Operators.OperatorImpl.SetInputImpl` | graph/operator.cc:176-214 | An input set again keeps its first source, while the new source records the link all the same; an unknown input is recorded at one end only |
| `Operators.OperatorImpl.AddControlInputImp` | graph/operator.cc:216-228 | A control link is recorded once, at both ends |
| `Operators.SetInput` | graph/operator.cc:176-214 | Setting a link keeps all operators well wired: every recorded link ends at an input of its operator and control lists agree |
| `Operators.SetInputFrom` | graph/operator.cc:123-174 | The overload without an output name has an effect only for a source with exactly one output, and keeps the wiring |
| `Operators.AddControlInput` | graph/operator.cc:216-228 | Adding a control link keeps the wiring and leaves the link at both ends |
| `GraphBuilders.GraphBuilderImpl.WalkAllOperators` | graph/operator.cc:2182-2229 | Terminates and creates one node for every operator that some number of data and control links, in either direction, leads to from the inputs, and for no other |
| `BuilderEdges.PlanEnds` | graph/operator.cc:2307-2314 | Every recorded link ends at an anchor of a created node, so AddEdge always finds its destination |
| `BuilderEdges.PlanRecords` | graph/operator.cc:2289-2342 | The planned peers of the out-anchors are the recorded output links and control-output links, and nothing else |
| `BuilderEdges.AddEdge` | graph/operator.cc:2289-2342 | Succeeds if and only if no data input is the end of two recorded links; then every out-anchor has exactly the recorded links, in order, and peer lists are mirrored |
| `BuilderEdges.CompleteNoClash` | graph/operator.cc:2315-2320 | A graph that realises all recorded links has no data input linked twice |
| `BuilderEdges.BuildGraph` | graph/operator.cc:2148-2177 | Refused without inputs; otherwise there is a node for exactly the operators that links lead to and success, exactly without a doubly linked input, means the edges are the recorded links |
| `BuilderEdges.HasSameNameNode` | graph/operator.cc:2348-2369 | True exactly when two nodes of the graph, or two nodes of one of its subgraphs, share a name |
| `OpDescs.PortTable.AddDesc` | graph/op_desc.cc:212-232 | A known name gets the new descriptor in place, a new name goes last; the name map stays a bijection onto the positions and every other name keeps its position and descriptor |
| `OpDescs.PortTable.AddNewDesc` | graph/op_desc.cc:594-610 | The output side refuses a known name without effect and otherwise appends |
| `OpDescs.PortTable.AddDescMiddle` | graph/op_desc.cc:234-296 | Every prefix of the insertion, a failed one included, keeps the name map a bijection onto the positions, and each earlier name still denotes its descriptor |
| `OpDescs.PortTable.AddDescForward` | graph/op_desc.cc:298-320 | The same for insertion at the front |
| `OpDescs.IndexedInserted` | graph/op_desc.cc:251-260 | Moving the positions from the insertion point up by one and entering the new name there keeps the bijection |
| `OpDescs.InsertMiddleIs` | graph/op_desc.cc:234-264 | Succeeds if and only if nothing is to be inserted, or the position is in range and no name is taken; then the numbered names stand together at that position, in order |
| `OpDescs.InsertForwardIs` | graph/op_desc.cc:298-320 | Succeeds if and only if no name is taken; then the numbered names stand in front, in reversed order |
| `OpDescs.MiddleKeepsOrder` | graph/op_desc.cc:234-264 | Earlier descriptors keep their relative order, success or not |
| `DynamicPorts.UpdateDynamicInputOutPutIndex` | register/register.cpp:194-241 | The dynamic ports whose count attribute exists, each with the position computed from the registered names ahead of it |
| `DynamicPorts.SortByIndex` | register/register.cpp:363-366 | Every port once, positions ascending |
| `DynamicPorts.AutoMappingByOpFnDynamic` | register/register.cpp:338-387 | The ports are inserted in the order of their positions, inputs and outputs each in their own table; started from the ports that are not dynamic, each table ends as the registered order with dynamic ports in full if and only if none without tensors is registered ahead of one with tensors |
| `DynamicPorts.PositionsAre` | register/register.cpp:214-239 | Each registered dynamic port gets the sum of the widths of the ports registered ahead of it |
| `DynamicPorts.SortedAsRegistered` | register/register.cpp:363-366 | Sorting by position puts the ports of each kind in registered order, whatever the map's order was |
| `DynamicPorts.DynamicLayout` | register/register.cpp:338-387 | The expansion yields the registered order with each dynamic port p replaced by p0 to p(n-1), for inputs and for outputs, if and only if no port of count 0 is registered ahead of one of positive count |
| `PortLayout.LayoutIff` | register/register.cpp:368-384 | The same equivalence for one list of ports and the insertion loop alone |
| `PortLayout.InsertAtLength` | register/register.cpp:214-239 | The computed position is never below the length of the layout so far, and equals it exactly when no port of count 0 is among the ports |
| `PortLayout.Misplaced` | register/register.cpp:362-384 | The first port with tensors behind one without is misplaced, or missing, for good |
| `Products.MulTestExact` | graph/tensor.cc:37-60 | The test passes if and only if the true product fits in 64 bits, under truncating division |
| `Products.GetShapeSize` | graph/tensor.cc:219-240 | Whichever comes first decides: an unknown dimension gives -1, a product that does not fit gives 0, and otherwise the size is the true product |
| `BroadCast.BroadCastInfer` | ops/op_imp.cpp:29-78 | Succeeds if and only if right-aligned dimensions agree or one of them is 1 beside a larger; the result has the longer length and the larger of each facing pair |
| `BroadCast.Commutes` | ops/op_imp.cpp:29-78 | Broadcasting is commutative, failure included |
| `BroadCast.Associates` | ops/op_imp.cpp:29-78 | Broadcasting three shapes does not depend on the order, failure included, and succeeds exactly when they fit pairwise |
| `BroadCast.Idempotent` | ops/op_imp.cpp:29-78 | A shape broadcast with itself is itself |
| `BroadCast.LeftIdentity` | ops/op_imp.cpp:29-78 | The empty shape is the identity |
| `ShapeFlow.ShapeRefiner.ReverseBrushWhileBodySubGraph` | graph/shape_refiner.cc:43-88 | Terminates and visits exactly the nodes that some number of data edges leads to from the varying inputs; their outputs and the inputs these feed lose their rank, every other shape stays |
| `ShapeFlow.ShapeRefiner.SetUnknownDimNumShape` | graph/tensor.cc:304-311 | Only the named slot changes, to the one-dimensional unknown-rank shape |
| `ShapeFlow.NodeAdded` | graph/shape_refiner.cc:62-85 | Visiting a further node adds exactly its outputs and what they feed to the marked slots |
| `BranchShapes.ParentNode.UpdateParentNodeForBranch` | graph/shape_refiner.cc:130-168 | A node with several batches takes the largest branches, any other node the joins: the latter fails exactly when the branches disagree on an element type before a rank difference is met; otherwise each output is the join of its branches and an output without branches stays |
| `BranchShapes.JoinIsLeastBound` | graph/shape_refiner.cc:130-168 | For branches of one element type the join is the least upper bound of their shapes if and only if unknown-rank tensors are not mixed with one-dimensional ones alone |
| `BranchShapes.BranchOrder` | graph/shape_refiner.cc:130-168 | For branches of one element type the join, whatever the shapes, does not depend on their order or repetition |
| `BranchShapes.TypesInOrder` | graph/shape_refiner.cc:130-168 | With several element types the order does matter: a rank difference met first hides the error |
| `BranchShapes.ConfusedPair` | graph/shape_refiner.cc:130-168 | Inside that mixture the join is not a bound: unknown rank beside [5] gives one unknown dimension |
| `BranchShapes.ParentNode.LargestOf` | graph/shape_refiner.cc:90-128 | Fails exactly on different element types or a size that is not positive or does not fit in 64 bits; otherwise the first tensor of maximal size |
| `BranchShapes.ParentNode.UpdataOutputForMultiBatcch` | graph/shape_refiner.cc:90-128 | Fails exactly when some output has such a tensor; otherwise every output with branches is the first of maximal size and the others stay |
| `BranchShapes.ParentNode.UpdateParentNodeForWhile` | graph/shape_refiner.cc:170-213 | Fails exactly on mismatched lists or element types; asks for invalidation exactly when some input differs from its loop output, whose rank is then given up |
| `BranchShapes.ComparedIs` | graph/shape_refiner.cc:170-213 | A loop output is invariant exactly when all body inputs at its position equal it |

## Left out

- Null and expired anchors, allocation failures, logging, error reports and graph dumps are left out: objects are alive and allocation succeeds.
- GraphUtils::AddEdge and GraphUtils::RemoveEdge are taken to be linking and unlinking of the two anchors; the rest of GraphUtils and NodeUtils is not part of this model.
- Anchors.Anchor.ReplacePeer: the first new peer is not the old one, whose list would grow between the search for a position in it and the write at that position.
- ComputeGraphs.ComputeGraph.BFSTopologicalSorting: nodes that one node can make ready together have different names, because they are collected by name and one of two namesakes is lost.
- ComputeGraphs.ComputeGraph.TopologicalSortingGraph: needs fewer than 2^32 counted in-edges and fewer than 2^32 loop edges per node, beyond which the 32-bit counters come round.
- NestedSort.TopologicalSorting: needs finite nesting and every flattened node once.
- The overload of TopologicalSorting that takes a comparison is left out: it is a library sort.
- IsolateNodes.IsolateNode: the full outcome is stated for graphs without control-to-data links, and a node without an edge to itself; that the result is a rewiring holds with control-to-data links too.
- EventNodes.ReorderOrderIff: no Recv releases another event and no Send waits for one; EventNodes.RepairedOrder and EventNodes.BrokenOrder show that otherwise the list at the start decides neither way. InsertEventNodes is left out.
- FormatRefiners.FormatRefiner.GetAnchorPoints: without the refresh of constants and the BiasAdd correction, which rewrite formats before the propagation starts.
- FormatRefiners.FormatRefiner.InferOriginFormat: format functions supplied by operators are abstract, lawful and without effect when they fail.
- FormatRefiners.FormatRefiner.InferPeer: a data input has at most one data source, as linking ensures, and every descriptor is valid.
- RefRelations.RefRelations.BuildRefRelations: index tags are not negative and the tags met in a loop body name positions of the operator, outside of which the original indexes out of range; cells are identified by port, not by the concatenated text; a position joined with itself stays as it is; GetRootGraph and the list of all nodes are given.
- Serialization.GraphReadBack: for unique names, edges inside the graph, and graph inputs and outputs inside the graph; the order of peers on the out side after reading is not stated, only multiplicities (EdgeTexts.EdgesBack).
- Serialization.ModelSerializeImp.SerializeGraph: attributes, tensor descriptors and data, storage in protocol messages, dump mode, RebuildOwnership and whole models are left out.
- ComputeGraphs.ComputeGraph.AddInputNode: a node that is not in the graph yet must be one it can hold, with all its anchors and no edge to a node outside; the host flag of the node is left out.
- Operators.OperatorImpl.SetInputImpl: the constant-input flags and the update of the descriptor of the input are left out.
- GraphBuilders.GraphBuilderImpl.WalkAllOperators: subgraph builders (WalkAllSubgraphs, MoveSubgraphToRoot) and the filter of input operators by type are left out; the order in which link maps are walked is arbitrary.
- BuilderEdges.AddEdge: after a refusal the edges added so far are not described.
- OpDescs.PortTable.AddDescMiddle: one table stands for the input side and the output side, whose code is the same; descriptors are a format and a shape.
- DynamicPorts.UpdateDynamicInputOutPutIndex: index arithmetic in naturals instead of 32-bit numbers; tensor counts are a map from attribute names instead of an attribute query.
- DynamicPorts.AutoMappingByOpFnDynamic: the attribute mapping that runs first and the check that the table has no empty names are left out.
- PortLayout.LayoutIff: for port names that do not collide, numbered ones included, and dynamic ports without descriptors of their own.
- BranchShapes.ParentNode.LargestOf: no dimension is 0, by which the original would divide.
- ShapeFlow.ShapeRefiner.ReverseBrushWhileBodySubGraph: the node taken from the stack is a copy, as intended, rather than a reference into it; the varying Data nodes are given.
- UpdateSubGraphDataNodes, the operator-supplied shape and verify functions and the inference contexts of graph/shape_refiner.cc are left out.
- Files, plugins, TensorFlow type tables, registries, the attribute wrappers of Operator and GNode, mutexes and session contexts are left out.

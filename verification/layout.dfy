/**
 * Byte layout of the network arena.
 *
 * The whole network lives in one allocation: a Network header followed by the
 * INPUT, HIDDEN and OUTPUT layers; each layer is an `ncount` header followed by
 * its nodes; each node is a bias, an output and a `wcount`, followed by
 * `wcount` doubles of weights. Nodes have one size inside a layer and different
 * sizes across layers, so layers and nodes are found by computed byte offsets.
 *
 * sizeof(Node), sizeof(Layer) and sizeof(Network) are kept symbolic; a record's
 * trailing flexible array is taken to start at the record's sizeof.
 */
module Layout {

  /** Bytes in a C `double`. */
  const DoubleSize: nat := 8

  /** The three layers, in the order they occupy the arena. */
  datatype LayerType = INPUT | HIDDEN | OUTPUT

  /** The two activation functions a layer may use. */
  datatype ActFctType = SIGMOID | TANH

  /** sizeof(Node), sizeof(Layer) and sizeof(Network) as the compiler lays them out. */
  datatype CSizes = CSizes(node: nat, layer: nat, network: nat) {
    predicate Valid() { node > 0 && layer > 0 && network > 0 }
  }

  /** Node counts the network is created with. */
  datatype Shape = Shape(inpCount: nat, hidCount: nat, outCount: nat) {

    /** The `ncount` of a layer. */
    function Count(lt: LayerType): nat {
      match lt
      case INPUT => inpCount
      case HIDDEN => hidCount
      case OUTPUT => outCount
    }

    /** The `wcount` of every node of a layer: one weight per node of the previous layer. */
    function WeightsPerNode(lt: LayerType): nat {
      match lt
      case INPUT => 0
      case HIDDEN => inpCount
      case OUTPUT => hidCount
    }
  }

  /** The six byte sizes the Network header stores. */
  datatype SizeTable = SizeTable(
    inpNodeSize: nat, inpLayerSize: nat,
    hidNodeSize: nat, hidLayerSize: nat,
    outNodeSize: nat, outLayerSize: nat)
  {
    function NodeSizeOf(lt: LayerType): nat {
      match lt
      case INPUT => inpNodeSize
      case HIDDEN => hidNodeSize
      case OUTPUT => outNodeSize
    }

    function LayerSizeOf(lt: LayerType): nat {
      match lt
      case INPUT => inpLayerSize
      case HIDDEN => hidLayerSize
      case OUTPUT => outLayerSize
    }
  }

  /** A half-open byte range [start, start + len) of the allocation. */
  datatype Range = Range(start: nat, len: nat) {
    function End(): nat { start + len }

    predicate Within(outer: Range) {
      outer.start <= start && End() <= outer.End()
    }

    predicate DisjointFrom(other: Range) {
      End() <= other.start || other.End() <= start
    }
  }

  /** Bytes of a Node record carrying `wcount` trailing weights. */
  function NodeSize(c: CSizes, wcount: nat): nat {
    c.node + wcount * DoubleSize
  }

  /** Bytes of a Layer record carrying `ncount` nodes of `nodeSize` bytes each. */
  function LayerSize(c: CSizes, ncount: nat, nodeSize: nat): nat {
    c.layer + ncount * nodeSize
  }

  /** The size table createNetwork computes once and stores in the header. */
  function SizeTableFor(c: CSizes, sh: Shape): SizeTable {
    var inpNodeSize := c.node;
    var inpLayerSize := c.layer + sh.inpCount * inpNodeSize;
    var hidNodeSize := c.node + sh.inpCount * DoubleSize;
    var hidLayerSize := c.layer + sh.hidCount * hidNodeSize;
    var outNodeSize := c.node + sh.hidCount * DoubleSize;
    var outLayerSize := c.layer + sh.outCount * outNodeSize;
    SizeTable(inpNodeSize, inpLayerSize, hidNodeSize, hidLayerSize, outNodeSize, outLayerSize)
  }

  /** Bytes createNetwork allocates: the header and the three layers. */
  function AllocationSize(c: CSizes, t: SizeTable): nat {
    c.network + t.inpLayerSize + t.hidLayerSize + t.outLayerSize
  }

  /** getLayer: offset of a layer from the start of the header's trailing `layers` region. */
  function LayerOffset(t: SizeTable, lt: LayerType): (off: nat)
    ensures off + t.LayerSizeOf(lt) <= t.inpLayerSize + t.hidLayerSize + t.outLayerSize
  {
    match lt
    case INPUT => 0
    case HIDDEN => t.inpLayerSize
    case OUTPUT => t.inpLayerSize + t.hidLayerSize
  }

  /** getNode: offset of node `id` from the layer's `nodes`, with the stride taken from the first node's `wcount`. */
  function NodeOffset(c: CSizes, wcount0: nat, id: nat): (off: nat)
    ensures off == Walk(0, NodeSize(c, wcount0), id)
  {
    WalkDistance(0, NodeSize(c, wcount0), id);
    id * NodeSize(c, wcount0)
  }

  /** Bytes of the allocation a layer occupies. */
  function LayerRange(c: CSizes, t: SizeTable, lt: LayerType): Range {
    Range(c.network + LayerOffset(t, lt), t.LayerSizeOf(lt))
  }

  /** Bytes of the allocation the node getNode(getLayer(lt), id) occupies, given the layer's first `wcount`. */
  function NodeRange(c: CSizes, t: SizeTable, lt: LayerType, wcount0: nat, id: nat): Range {
    Range(LayerRange(c, t, lt).start + c.layer + NodeOffset(c, wcount0, id), NodeSize(c, wcount0))
  }

  /** Bytes of weight `i` of the node that starts at `nodeStart`. */
  function WeightRange(c: CSizes, nodeStart: nat, i: nat): Range {
    Range(nodeStart + c.node + i * DoubleSize, DoubleSize)
  }

  /** The three ranges initNetwork copies the temporary layers into, found by advancing one byte pointer. */
  function InitNetworkCopies(c: CSizes, t: SizeTable): (copies: seq<Range>)
    ensures |copies| == 3 && copies[0].start == c.network
    ensures copies[0].End() == copies[1].start && copies[1].End() == copies[2].start
    ensures copies[2].End() == AllocationSize(c, t)
  {
    var p0 := c.network;
    var p1 := p0 + t.inpLayerSize;
    var p2 := p1 + t.hidLayerSize;
    [Range(p0, t.inpLayerSize), Range(p1, t.hidLayerSize), Range(p2, t.outLayerSize)]
  }

  /** Where a byte pointer ends after `steps` increments of `step` bytes from `start`. */
  function Walk(start: nat, step: nat, steps: nat): nat {
    if steps == 0 then start else Walk(start, step, steps - 1) + step
  }

  /** Record `o1` of `s` units ends no later than record `o2` begins. */
  lemma {:induction false} RowBefore(o1: nat, o2: nat, s: nat)
    requires o1 < o2
    ensures o1 * s + s <= o2 * s
  {
    if o1 + 1 < o2 {
      RowBefore(o1, o2 - 1, s);
    }
  }

  /** A larger factor gives a larger product. */
  lemma {:induction false} MulMono(a: nat, b: nat, s: nat)
    requires a <= b
    ensures a * s <= b * s
  {
    if a < b {
      RowBefore(a, b, s);
    }
  }

  /**
   * The stored sizes are the record sizes: an input node is a bare Node, a hidden
   * node carries one double per input node, an output node one per hidden node,
   * and each layer is its header plus `ncount` such nodes.
   */
  lemma SizeTableMatchesRecords(c: CSizes, sh: Shape, lt: LayerType)
    ensures SizeTableFor(c, sh).NodeSizeOf(lt) == NodeSize(c, sh.WeightsPerNode(lt))
    ensures SizeTableFor(c, sh).LayerSizeOf(lt) == LayerSize(c, sh.Count(lt), SizeTableFor(c, sh).NodeSizeOf(lt))
    ensures SizeTableFor(c, sh).inpNodeSize == c.node
  {
  }

  /**
   * The header and the three layers tile the allocation in the order INPUT,
   * HIDDEN, OUTPUT, at the offsets getLayer computes, which are the ranges
   * initNetwork copies the layers into.
   */
  lemma LayersTileAllocation(c: CSizes, t: SizeTable)
    ensures LayerRange(c, t, INPUT).start == c.network
    ensures LayerRange(c, t, INPUT).End() == LayerRange(c, t, HIDDEN).start
    ensures LayerRange(c, t, HIDDEN).End() == LayerRange(c, t, OUTPUT).start
    ensures LayerRange(c, t, OUTPUT).End() == AllocationSize(c, t)
    ensures InitNetworkCopies(c, t) == [LayerRange(c, t, INPUT), LayerRange(c, t, HIDDEN), LayerRange(c, t, OUTPUT)]
  {
  }

  /** Distinct layers occupy disjoint bytes. */
  lemma LayersDisjoint(c: CSizes, t: SizeTable, lt1: LayerType, lt2: LayerType)
    requires lt1 != lt2
    ensures LayerRange(c, t, lt1).DisjointFrom(LayerRange(c, t, lt2))
  {
  }

  /** Every in-range node of a layer lies entirely inside that layer. */
  lemma NodeWithinLayer(c: CSizes, sh: Shape, lt: LayerType, id: nat)
    requires id < sh.Count(lt)
    ensures NodeRange(c, SizeTableFor(c, sh), lt, sh.WeightsPerNode(lt), id).Within(LayerRange(c, SizeTableFor(c, sh), lt))
  {
    SizeTableMatchesRecords(c, sh, lt);
    RowBefore(id, sh.Count(lt), NodeSize(c, sh.WeightsPerNode(lt)));
  }

  /** Distinct nodes of one layer occupy disjoint bytes. */
  lemma NodesDisjoint(c: CSizes, t: SizeTable, lt: LayerType, wcount0: nat, id1: nat, id2: nat)
    requires id1 != id2
    ensures NodeRange(c, t, lt, wcount0, id1).DisjointFrom(NodeRange(c, t, lt, wcount0, id2))
  {
    if id1 < id2 {
      RowBefore(id1, id2, NodeSize(c, wcount0));
    } else {
      RowBefore(id2, id1, NodeSize(c, wcount0));
    }
  }

  /** Nodes of different layers occupy disjoint bytes. */
  lemma NodesOfDistinctLayersDisjoint(c: CSizes, sh: Shape, lt1: LayerType, id1: nat, lt2: LayerType, id2: nat)
    requires lt1 != lt2 && id1 < sh.Count(lt1) && id2 < sh.Count(lt2)
    ensures NodeRange(c, SizeTableFor(c, sh), lt1, sh.WeightsPerNode(lt1), id1)
              .DisjointFrom(NodeRange(c, SizeTableFor(c, sh), lt2, sh.WeightsPerNode(lt2), id2))
  {
    NodeWithinLayer(c, sh, lt1, id1);
    NodeWithinLayer(c, sh, lt2, id2);
    LayersDisjoint(c, SizeTableFor(c, sh), lt1, lt2);
  }

  /** Weight `i < wcount` of a node lies inside the node, after its bias/output/wcount header. */
  lemma WeightWithinNode(c: CSizes, nodeStart: nat, wcount: nat, i: nat)
    requires i < wcount
    ensures WeightRange(c, nodeStart, i).Within(Range(nodeStart + c.node, wcount * DoubleSize))
    ensures Range(nodeStart + c.node, wcount * DoubleSize).End() == Range(nodeStart, NodeSize(c, wcount)).End()
  {
  }

  /** A pointer advanced `steps` times by `step` bytes moves `steps * step` bytes. */
  lemma {:induction false} WalkDistance(start: nat, step: nat, steps: nat)
    ensures Walk(start, step, steps) == start + steps * step
  {
    if steps > 0 {
      WalkDistance(start, step, steps - 1);
    }
  }

  /**
   * The loops that step through a layer by its stored node size (and feedInput's
   * `iln++`, which steps by sizeof(Node)) reach the node getNode finds from the
   * first node's `wcount`.
   */
  lemma WalkReachesNode(c: CSizes, sh: Shape, lt: LayerType, id: nat)
    ensures Walk(0, SizeTableFor(c, sh).NodeSizeOf(lt), id) == NodeOffset(c, sh.WeightsPerNode(lt), id)
    ensures lt == INPUT ==> Walk(0, c.node, id) == NodeOffset(c, sh.WeightsPerNode(lt), id)
  {
    SizeTableMatchesRecords(c, sh, lt);
    WalkDistance(0, SizeTableFor(c, sh).NodeSizeOf(lt), id);
    WalkDistance(0, c.node, id);
  }
}

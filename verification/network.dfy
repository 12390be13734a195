/**
 * The network as mutable state: three layers whose node fields are written in
 * place by construction, the forward pass, back-propagation and the classifier.
 *
 * Each layer keeps its nodes' `bias`, `output` and `wcount` fields in per-layer
 * arrays and all its nodes' weights in one flat buffer, node `o`'s weight `i`
 * at `o * stride + i`, the way the arena lays a node's weights out after it.
 */
module Net {
  import opened Layout
  import opened Kernels
  import opened Classifier

  /** A Vector record: `size` followed by exactly `size` values. */
  class Vector {
    const size: nat
    const vals: array<real>

    ghost predicate Valid() {
      vals.Length == size
    }

    constructor (values: array<real>)
      ensures Valid() && vals == values
    {
      size := values.Length;
      vals := values;
    }
  }

  /** A Layer record: `ncount` followed by exactly `ncount` nodes of `stride` weights each. */
  class Layer {
    const ncount: nat
    /** Weights per node; every node's `wcount` holds it. */
    const stride: nat
    const bias: array<real>
    const output: array<real>
    const wcount: array<int>
    const weights: array<real>

    ghost predicate Valid()
      reads wcount
    {
      && bias.Length == ncount && output.Length == ncount && wcount.Length == ncount
      && weights.Length == ncount * stride
      && bias != output && bias != weights && output != weights
      && forall o :: 0 <= o < ncount ==> wcount[o] == stride
    }

    /** No array of this layer is an array of `other`. */
    predicate Separate(other: Layer) {
      && bias != other.bias && bias != other.output && bias != other.weights
      && output != other.bias && output != other.output && output != other.weights
      && weights != other.bias && weights != other.output && weights != other.weights
    }

    /** The weights of every node, node by node. */
    function WeightRows(): (rows: seq<seq<real>>)
      reads weights
      requires weights.Length == ncount * stride
      ensures |rows| == ncount
      ensures forall o :: 0 <= o < ncount ==> |rows[o]| == stride
    {
      Rows(weights[..], stride, ncount)
    }

    /** createInputLayer: `inpCount` nodes with no weights and bias and output 0. */
    constructor CreateInput(inpCount: nat)
      ensures Valid() && ncount == inpCount && stride == 0
      ensures fresh(bias) && fresh(output) && fresh(wcount) && fresh(weights)
      ensures forall o :: 0 <= o < ncount ==> bias[o] == 0.0 && output[o] == 0.0
    {
      ncount := inpCount;
      stride := 0;
      bias := new real[inpCount];
      output := new real[inpCount];
      wcount := new int[inpCount];
      weights := new real[0];
      new;
      var i := 0;
      while i < inpCount
        invariant 0 <= i <= inpCount
        invariant forall o :: 0 <= o < i ==> bias[o] == 0.0 && output[o] == 0.0 && wcount[o] == 0
      {
        bias[i] := 0.0;
        output[i] := 0.0;
        wcount[i] := 0;
        i := i + 1;
      }
    }

    /** createLayer: `nodeCount` nodes of `weightCount` weights, all weights, biases and outputs 0. */
    constructor Create(nodeCount: nat, weightCount: nat)
      ensures Valid() && ncount == nodeCount && stride == weightCount
      ensures fresh(bias) && fresh(output) && fresh(wcount) && fresh(weights)
      ensures forall o :: 0 <= o < ncount ==> bias[o] == 0.0 && output[o] == 0.0
      ensures forall k :: 0 <= k < weights.Length ==> weights[k] == 0.0
    {
      ncount := nodeCount;
      stride := weightCount;
      bias := new real[nodeCount];
      output := new real[nodeCount];
      wcount := new int[nodeCount];
      weights := new real[nodeCount * weightCount];
      new;
      var i := 0;
      while i < nodeCount
        invariant 0 <= i <= nodeCount
        invariant forall o :: 0 <= o < i ==> bias[o] == 0.0 && output[o] == 0.0 && wcount[o] == weightCount
        invariant forall k :: 0 <= k < i * weightCount ==> weights[k] == 0.0
      {
        bias[i] := 0.0;
        output[i] := 0.0;
        wcount[i] := weightCount;
        RowBefore(i, nodeCount, weightCount);
        var j := 0;
        while j < weightCount
          invariant 0 <= j <= weightCount
          invariant forall o :: 0 <= o <= i ==> bias[o] == 0.0 && output[o] == 0.0 && wcount[o] == weightCount
          invariant forall k :: 0 <= k < i * weightCount + j ==> weights[k] == 0.0
        {
          weights[i * weightCount + j] := 0.0;
          j := j + 1;
        }
        i := i + 1;
      }
    }

    /**
     * Node by node, one draw per weight (scaled by 0.7, negated at an odd weight
     * index), then one draw for the bias (negated at an odd node index); draws are
     * taken from `start` on and `next` is the first one left.
     */
    method InitWeights(rands: seq<real>, start: nat) returns (next: nat)
      requires Valid() && Draws(rands) && start + ncount * (stride + 1) <= |rands|
      modifies weights, bias
      ensures next == start + ncount * (stride + 1)
      ensures WeightRows() == InitialRows(rands, start, stride, ncount)
      ensures bias[..] == InitialBiases(rands, start, stride, ncount)
    {
      OffsetIsProduct(ncount, stride + 1);
      var k := start;
      var o := 0;
      while o < ncount
        invariant 0 <= o <= ncount
        invariant k == start + Offset(o, stride + 1)
        invariant forall p :: 0 <= p < o ==> WeightRows()[p] == InitialRow(rands, start, stride, ncount, p)
        invariant forall p :: 0 <= p < o ==> bias[p] == InitialBiases(rands, start, stride, ncount)[p]
      {
        k := InitNode(rands, start, o, k);
        o := o + 1;
      }
      next := k;
    }

    /** The body of initWeights' node loop: node `o`'s weights, then its bias, from the draws at `k` on. */
    method InitNode(rands: seq<real>, start: nat, o: nat, k: nat) returns (next: nat)
      requires Valid() && Draws(rands) && start + ncount * (stride + 1) <= |rands|
      requires o < ncount && k == start + Offset(o, stride + 1)
      modifies weights, bias
      ensures next == start + Offset(o + 1, stride + 1)
      ensures WeightRows() == old(WeightRows())[o := InitialRow(rands, start, stride, ncount, o)]
      ensures bias[..] == old(bias[..])[o := InitialBiases(rands, start, stride, ncount)[o]]
    {
      var s, n := stride, ncount;
      OffsetIsProduct(n, s);
      OffsetIsProduct(n, s + 1);
      OffsetBefore(o, n, s);
      OffsetBefore(o, n, s + 1);
      ghost var before := weights[..];
      ghost var row := InitialRow(rands, start, s, n, o);
      var base := Offset(o, s);
      next := k;
      var i := 0;
      while i < wcount[o]
        modifies weights
        invariant 0 <= i <= s
        invariant next == k + i
        invariant forall q :: 0 <= q < weights.Length && (q < base || base + s <= q) ==> weights[q] == before[q]
        invariant forall q :: base <= q < base + i ==> weights[q] == row[q - base]
      {
        assert row[i] == InitialWeight(rands[next], i);
        weights[base + i] := 0.7 * rands[next];
        next := next + 1;
        if i % 2 == 1 {
          weights[base + i] := -weights[base + i];
        }
        i := i + 1;
      }
      RowsReplace(before, weights[..], s, n, o, row);
      bias[o] := rands[next];
      next := next + 1;
      if o % 2 == 1 {
        bias[o] := -bias[o];
      }
    }

    /** Node `id`'s output becomes its activation under `t`. */
    method ActivateNode(a: Activations, t: ActFctType, id: nat)
      requires Valid() && id < ncount
      modifies output
      ensures output[..] == old(output[..])[id := Activate(a, t, old(output[id]))]
    {
      if t == TANH {
        output[id] := a.tanh(output[id]);
      } else {
        output[id] := a.sigmoid(output[id]);
      }
    }

    /** Node `id`'s output becomes its bias plus the products of its weights with the outputs `x`. */
    method CalcNodeOutput(id: nat, x: array<real>)
      requires Valid() && id < ncount && x.Length == stride && x != output
      modifies output
      ensures output[..] == old(output[..])[id := bias[id] + Dot(x[..], WeightRows()[id], x.Length)]
    {
      ghost var row := WeightRows()[id];
      output[id] := bias[id];
      var i := 0;
      while i < x.Length
        invariant 0 <= i <= x.Length
        invariant output[id] == bias[id] + Dot(x[..], row, i)
        invariant forall j :: 0 <= j < ncount && j != id ==> output[j] == old(output[j])
      {
        RowsAt(weights[..], stride, ncount, id, i);
        var w := weights[Offset(id, stride) + i];
        assert output[id] + x[i] * w == bias[id] + Dot(x[..], row, i + 1) by {
          assert x[..][i] == x[i] && row[i] == w;
        }
        output[id] := output[id] + x[i] * w;
        i := i + 1;
      }
      assert output[..] == old(output[..])[id := bias[id] + Dot(x[..], row, x.Length)];
    }

    /** The delta rule on node `id`: weight i moves by rate * x[i] * error, the bias by rate * error. */
    method UpdateNodeWeights(id: nat, x: array<real>, rate: real, error: real)
      requires Valid() && id < ncount && stride <= x.Length && x != weights && x != bias
      modifies weights, bias
      ensures WeightRows() == old(WeightRows())[id := DeltaRow(old(WeightRows())[id], x[..], rate, error)]
      ensures bias[..] == old(bias[..])[id := BiasStep(old(bias[..])[id], rate, error)]
    {
      var s, n := stride, ncount;
      ghost var w0 := weights[..];
      ghost var r := DeltaRow(WeightRows()[id], x[..], rate, error);
      OffsetIsProduct(n, s);
      OffsetBefore(id, n, s);
      var base := Offset(id, s);
      var i := 0;
      while i < wcount[id]
        modifies weights
        invariant 0 <= i <= s
        invariant forall q :: 0 <= q < weights.Length && (q < base || base + i <= q) ==> weights[q] == w0[q]
        invariant forall q :: base <= q < base + i ==> weights[q] == r[q - base]
      {
        RowsAt(w0, s, n, id, i);
        weights[base + i] := weights[base + i] + rate * x[i] * error;
        i := i + 1;
      }
      RowsReplace(w0, weights[..], s, n, id, r);
      bias[id] := bias[id] + rate * 1.0 * error;
    }
  }

  /** The Network record: the size table, learning rate and activation types, then the three layers. */
  class Network {
    /** sizeof(Node), sizeof(Layer), sizeof(Network). */
    const sizes: CSizes
    /** The six node and layer byte sizes, computed once at construction. */
    const table: SizeTable
    var learningRate: real
    var hidLayerActType: ActFctType
    var outLayerActType: ActFctType
    const inp: Layer
    const hid: Layer
    const out: Layer
    /** The C library's logistic and tanh functions, the same for every pass. */
    const act: Activations

    /** The node counts of the three layers. */
    function Counts(): Shape {
      Shape(inp.ncount, hid.ncount, out.ncount)
    }

    ghost predicate Valid()
      reads inp.wcount, hid.wcount, out.wcount
    {
      && sizes.Valid()
      && inp.Valid() && hid.Valid() && out.Valid()
      && inp.stride == 0 && hid.stride == inp.ncount && out.stride == hid.ncount
      && inp.Separate(hid) && inp.Separate(out) && hid.Separate(out)
      && table == SizeTableFor(sizes, Counts())
    }

    /** getLayer. */
    function GetLayer(lt: LayerType): Layer {
      match lt
      case INPUT => inp
      case HIDDEN => hid
      case OUTPUT => out
    }

    /** The layer a layer's weights connect to: INPUT for HIDDEN, HIDDEN otherwise. */
    function PrevLayer(lt: LayerType): Layer {
      if lt == HIDDEN then inp else hid
    }

    /** The activation type of a layer: the hidden type for HIDDEN, the output type otherwise. */
    function ActTypeFor(lt: LayerType): ActFctType
      reads this
    {
      if lt == HIDDEN then hidLayerActType else outLayerActType
    }

    /** getActFctDerivative. */
    function GetActFctDerivative(lt: LayerType, outVal: real): real
      reads this
    {
      Derivative(act, ActTypeFor(lt), outVal)
    }

    /** The stride getNode derives from a layer's first `wcount` is the node size stored in the header. */
    lemma NodeStrideMatchesTable(lt: LayerType)
      requires Valid() && GetLayer(lt).ncount > 0
      ensures NodeSize(sizes, GetLayer(lt).wcount[0]) == table.NodeSizeOf(lt)
    {
      SizeTableMatchesRecords(sizes, Counts(), lt);
    }

    /** Every node getNode can reach lies inside its layer, and every layer inside the allocation. */
    lemma NodeInArena(lt: LayerType, id: nat)
      requires Valid() && id < GetLayer(lt).ncount
      ensures NodeRange(sizes, table, lt, GetLayer(lt).wcount[0], id).Within(LayerRange(sizes, table, lt))
      ensures LayerRange(sizes, table, lt).Within(Range(0, AllocationSize(sizes, table)))
    {
      NodeWithinLayer(sizes, Counts(), lt, id);
      LayersTileAllocation(sizes, table);
    }

    /** createNetwork: size table, the three layers, defaults, then random weights for HIDDEN and OUTPUT. */
    constructor (c: CSizes, a: Activations, inpCount: nat, hidCount: nat, outCount: nat, rands: seq<real>)
      requires c.Valid()
      requires Draws(rands)
      requires hidCount * (inpCount + 1) + outCount * (hidCount + 1) <= |rands|
      ensures Valid()
      ensures fresh(inp) && fresh(hid) && fresh(out)
      ensures fresh(inp.bias) && fresh(inp.output) && fresh(inp.wcount) && fresh(inp.weights)
      ensures fresh(hid.bias) && fresh(hid.output) && fresh(hid.wcount) && fresh(hid.weights)
      ensures fresh(out.bias) && fresh(out.output) && fresh(out.wcount) && fresh(out.weights)
      ensures sizes == c && act == a && table == SizeTableFor(c, Shape(inpCount, hidCount, outCount))
      ensures inp.ncount == inpCount && hid.ncount == hidCount && out.ncount == outCount
      ensures forall o :: 0 <= o < inpCount ==> inp.wcount[o] == 0 && inp.bias[o] == 0.0 && inp.output[o] == 0.0
      ensures forall o :: 0 <= o < hidCount ==> hid.wcount[o] == inpCount && hid.output[o] == 0.0
      ensures forall o :: 0 <= o < outCount ==> out.wcount[o] == hidCount && out.output[o] == 0.0
      ensures hidLayerActType == SIGMOID && outLayerActType == SIGMOID && learningRate == 0.2
      ensures hid.WeightRows() == InitialRows(rands, 0, inpCount, hidCount)
      ensures hid.bias[..] == InitialBiases(rands, 0, inpCount, hidCount)
      ensures out.WeightRows() == InitialRows(rands, hidCount * (inpCount + 1), hidCount, outCount)
      ensures out.bias[..] == InitialBiases(rands, hidCount * (inpCount + 1), hidCount, outCount)
    {
      sizes := c;
      act := a;
      table := SizeTableFor(c, Shape(inpCount, hidCount, outCount));
      inp := new Layer.CreateInput(inpCount);
      hid := new Layer.Create(hidCount, inpCount);
      out := new Layer.Create(outCount, hidCount);
      new;
      SetNetworkDefaults();
      var next := hid.InitWeights(rands, 0);
      next := out.InitWeights(rands, next);
    }

    /** setNetworkDefaults: both layers SIGMOID; the second learning-rate assignment wins. */
    method SetNetworkDefaults()
      modifies this
      ensures hidLayerActType == SIGMOID && outLayerActType == SIGMOID && learningRate == 0.2
    {
      hidLayerActType := SIGMOID;
      outLayerActType := SIGMOID;
      learningRate := 0.004;
      learningRate := 0.2;
    }

    /** initWeights on the layer `lt`, which must not be INPUT, drawing from `start` on. */
    method InitWeights(lt: LayerType, rands: seq<real>, start: nat) returns (next: nat)
      requires Valid() && lt != INPUT
      requires Draws(rands)
      requires start + GetLayer(lt).ncount * (GetLayer(lt).stride + 1) <= |rands|
      modifies GetLayer(lt).weights, GetLayer(lt).bias
      ensures Valid()
      ensures next == start + GetLayer(lt).ncount * (GetLayer(lt).stride + 1)
      ensures GetLayer(lt).WeightRows() == InitialRows(rands, start, GetLayer(lt).stride, GetLayer(lt).ncount)
      ensures GetLayer(lt).bias[..] == InitialBiases(rands, start, GetLayer(lt).stride, GetLayer(lt).ncount)
    {
      next := GetLayer(lt).InitWeights(rands, start);
    }

    /** feedInput: input node i's output becomes the vector's value i, for every i < v.size. */
    method FeedInput(v: Vector)
      requires Valid() && v.Valid() && v.size <= inp.ncount
      modifies inp.output
      ensures Valid()
      ensures inp.output[..] == old(v.vals[..]) + old(inp.output[..])[v.size..]
    {
      var i := 0;
      while i < v.size
        invariant 0 <= i <= v.size
        invariant forall j :: 0 <= j < i ==> inp.output[j] == old(v.vals[j])
        invariant forall j :: i <= j < inp.ncount ==> inp.output[j] == old(inp.output[j])
        invariant forall j :: i <= j < v.size ==> v.vals[j] == old(v.vals[j])
      {
        inp.output[i] := v.vals[i];
        i := i + 1;
      }
      assert inp.output[..] == old(v.vals[..]) + old(inp.output[..])[v.size..];
    }

    /** activateNode: the node's output is replaced by its activation under the layer's type. */
    method ActivateNode(lt: LayerType, id: nat)
      requires Valid() && id < GetLayer(lt).ncount
      modifies GetLayer(lt).output
      ensures Valid()
      ensures GetLayer(lt).output[..] == old(GetLayer(lt).output[..])[id := Activate(act, ActTypeFor(lt), old(GetLayer(lt).output[id]))]
    {
      GetLayer(lt).ActivateNode(act, ActTypeFor(lt), id);
    }

    /** calcNodeOutput: the node's output becomes its bias plus its weighted previous-layer outputs. */
    method CalcNodeOutput(lt: LayerType, id: nat)
      requires Valid() && lt != INPUT && id < GetLayer(lt).ncount
      modifies GetLayer(lt).output
      ensures Valid()
      ensures GetLayer(lt).output[..]
              == old(GetLayer(lt).output[..])[id := GetLayer(lt).bias[id]
                   + Dot(PrevLayer(lt).output[..], GetLayer(lt).WeightRows()[id], PrevLayer(lt).ncount)]
    {
      GetLayer(lt).CalcNodeOutput(id, PrevLayer(lt).output);
    }

    /** calcLayer: nodes in index order, each computed and then activated; only this layer's outputs change. */
    method CalcLayer(lt: LayerType)
      requires Valid() && lt != INPUT
      modifies GetLayer(lt).output
      ensures Valid()
      ensures GetLayer(lt).output[..]
              == LayerOutputs(act, ActTypeFor(lt), GetLayer(lt).bias[..], GetLayer(lt).WeightRows(), PrevLayer(lt).output[..])
    {
      var l := GetLayer(lt);
      var prev := PrevLayer(lt);
      var i := 0;
      while i < l.ncount
        invariant 0 <= i <= l.ncount
        invariant forall o :: 0 <= o < i ==> l.output[o] == NodeOutput(act, ActTypeFor(lt), l.bias[o], l.WeightRows()[o], prev.output[..])
        invariant forall o :: i <= o < l.ncount ==> l.output[o] == old(l.output[o])
      {
        CalcNodeOutput(lt, i);
        ActivateNode(lt, i);
        i := i + 1;
      }
      assert l.output[..] == LayerOutputs(act, ActTypeFor(lt), l.bias[..], l.WeightRows(), prev.output[..]);
    }

    /** feedForwardNetwork: HIDDEN from INPUT, then OUTPUT from the new HIDDEN outputs. */
    method FeedForwardNetwork()
      requires Valid()
      modifies hid.output, out.output
      ensures Valid()
      ensures hid.output[..] == LayerOutputs(act, hidLayerActType, hid.bias[..], hid.WeightRows(), inp.output[..])
      ensures out.output[..] == LayerOutputs(act, outLayerActType, out.bias[..], out.WeightRows(), hid.output[..])
    {
      CalcLayer(HIDDEN);
      CalcLayer(OUTPUT);
    }

    /** updateNodeWeights: the delta rule on one node; its weights and bias move, nothing else. */
    method UpdateNodeWeights(lt: LayerType, id: nat, error: real)
      requires Valid() && id < GetLayer(lt).ncount
      modifies GetLayer(lt).weights, GetLayer(lt).bias
      ensures Valid()
      ensures GetLayer(lt).WeightRows()
              == old(GetLayer(lt).WeightRows())[id := DeltaRow(old(GetLayer(lt).WeightRows())[id], PrevLayer(lt).output[..], learningRate, error)]
      ensures GetLayer(lt).bias[..] == old(GetLayer(lt).bias[..])[id := BiasStep(old(GetLayer(lt).bias[id]), learningRate, error)]
    {
      var l := GetLayer(lt);
      l.UpdateNodeWeights(id, PrevLayer(lt).output, learningRate, error);
    }

    /** The error signal of output node `o`: (target - output) times the derivative at the output. */
    method OutputErrorSignal(o: nat, targetClass: int) returns (errorSignal: real)
      requires Valid() && o < out.ncount
      ensures errorSignal == OutputSignals(act, outLayerActType, out.output[..], targetClass)[o]
    {
      var targetOutput := if o == targetClass then 1.0 else 0.0;
      var errorDelta := targetOutput - out.output[o];
      errorSignal := errorDelta * GetActFctDerivative(OUTPUT, out.output[o]);
    }

    /** backPropagateOutputLayer: the delta rule on every output node, with its output error signal. */
    method BackPropagateOutputLayer(targetClass: int)
      requires Valid()
      modifies out.weights, out.bias
      ensures Valid()
      ensures out.WeightRows()
              == LayerDelta(old(out.WeightRows()), hid.output[..], learningRate, OutputSignals(act, outLayerActType, out.output[..], targetClass))
      ensures out.bias[..] == BiasDelta(old(out.bias[..]), learningRate, OutputSignals(act, outLayerActType, out.output[..], targetClass))
    {
      ghost var rows0 := out.WeightRows();
      ghost var bias0 := out.bias[..];
      ghost var sigs := OutputSignals(act, outLayerActType, out.output[..], targetClass);
      ghost var x := hid.output[..];
      LayerDeltaUpToEnds(rows0, x, learningRate, sigs);
      BiasDeltaUpToEnds(bias0, learningRate, sigs);
      var o := 0;
      while o < out.ncount
        invariant 0 <= o <= out.ncount
        invariant out.WeightRows() == LayerDeltaUpTo(rows0, x, learningRate, sigs, o)
        invariant out.bias[..] == BiasDeltaUpTo(bias0, learningRate, sigs, o)
      {
        var errorSignal := OutputErrorSignal(o, targetClass);
        LayerDeltaStep(rows0, x, learningRate, sigs, o);
        ghost var before := out.bias[..];
        UpdateNodeWeights(OUTPUT, o, errorSignal);
        BiasDeltaStep(bias0, learningRate, sigs, o, before, out.bias[..], errorSignal);
        o := o + 1;
      }
    }

    /** The error sum of hidden node `h`: each output node's error signal times its weight `h`, summed. */
    method OutputCellErrorSum(h: nat, targetClass: int) returns (outputcellerrorsum: real)
      requires Valid() && h < hid.ncount
      ensures outputcellerrorsum == ErrorSum(OutputSignals(act, outLayerActType, out.output[..], targetClass), out.WeightRows(), h, out.ncount)
    {
      ghost var sigs := OutputSignals(act, outLayerActType, out.output[..], targetClass);
      ghost var rows := out.WeightRows();
      outputcellerrorsum := 0.0;
      var o := 0;
      while o < out.ncount
        invariant 0 <= o <= out.ncount
        invariant outputcellerrorsum == ErrorSum(sigs, rows, h, o)
      {
        var errorSignal := OutputErrorSignal(o, targetClass);
        RowsAt(out.weights[..], out.stride, out.ncount, o, h);
        var w := out.weights[Offset(o, out.stride) + h];
        assert outputcellerrorsum + errorSignal * w == ErrorSum(sigs, rows, h, o + 1) by {
          ErrorSumStep(sigs, rows, h, o, outputcellerrorsum, errorSignal, w);
        }
        outputcellerrorsum := outputcellerrorsum + errorSignal * w;
        o := o + 1;
      }
    }

    /** The error signal of hidden node `h`: its error sum times the derivative at its output. */
    method HiddenErrorSignal(h: nat, targetClass: int) returns (hiddenErrorSignal: real)
      requires Valid() && h < hid.ncount
      ensures hiddenErrorSignal
              == HiddenSignals(act, hidLayerActType, hid.output[..], OutputSignals(act, outLayerActType, out.output[..], targetClass), out.WeightRows())[h]
    {
      var outputcellerrorsum := OutputCellErrorSum(h, targetClass);
      var dVal := GetActFctDerivative(HIDDEN, hid.output[h]);
      hiddenErrorSignal := outputcellerrorsum * dVal;
      HiddenSignalsAt(act, hidLayerActType, hid.output[..], OutputSignals(act, outLayerActType, out.output[..], targetClass),
                      out.WeightRows(), h, outputcellerrorsum, dVal);
    }

    /**
     * backPropagateHiddenLayer: the delta rule on every hidden node, with an error
     * signal summed over the output nodes from the output weights as they are now.
     */
    method BackPropagateHiddenLayer(targetClass: int)
      requires Valid()
      modifies hid.weights, hid.bias
      ensures Valid()
      ensures hid.WeightRows()
              == LayerDelta(old(hid.WeightRows()), inp.output[..], learningRate,
                   HiddenSignals(act, hidLayerActType, hid.output[..], OutputSignals(act, outLayerActType, out.output[..], targetClass), out.WeightRows()))
      ensures hid.bias[..]
              == BiasDelta(old(hid.bias[..]), learningRate,
                   HiddenSignals(act, hidLayerActType, hid.output[..], OutputSignals(act, outLayerActType, out.output[..], targetClass), out.WeightRows()))
    {
      ghost var rows0 := hid.WeightRows();
      ghost var bias0 := hid.bias[..];
      ghost var sigs := OutputSignals(act, outLayerActType, out.output[..], targetClass);
      ghost var hsigs := HiddenSignals(act, hidLayerActType, hid.output[..], sigs, out.WeightRows());
      ghost var x := inp.output[..];
      LayerDeltaUpToEnds(rows0, x, learningRate, hsigs);
      BiasDeltaUpToEnds(bias0, learningRate, hsigs);
      var h := 0;
      while h < hid.ncount
        invariant 0 <= h <= hid.ncount
        invariant hid.WeightRows() == LayerDeltaUpTo(rows0, x, learningRate, hsigs, h)
        invariant hid.bias[..] == BiasDeltaUpTo(bias0, learningRate, hsigs, h)
      {
        var hiddenErrorSignal := HiddenErrorSignal(h, targetClass);
        LayerDeltaStep(rows0, x, learningRate, hsigs, h);
        ghost var before := hid.bias[..];
        UpdateNodeWeights(HIDDEN, h, hiddenErrorSignal);
        BiasDeltaStep(bias0, learningRate, hsigs, h, before, hid.bias[..], hiddenErrorSignal);
        h := h + 1;
      }
    }

    /**
     * backPropagateNetwork: the output layer first, then the hidden layer, whose
     * error sums read the output weights already updated by the first step.
     * No output, `wcount` or `ncount` changes.
     */
    method BackPropagateNetwork(targetClass: int)
      requires Valid()
      modifies out.weights, out.bias, hid.weights, hid.bias
      ensures Valid()
      ensures unchanged(inp.output, hid.output, out.output)
      ensures out.WeightRows()
              == LayerDelta(old(out.WeightRows()), hid.output[..], learningRate, OutputSignals(act, outLayerActType, out.output[..], targetClass))
      ensures out.bias[..] == BiasDelta(old(out.bias[..]), learningRate, OutputSignals(act, outLayerActType, out.output[..], targetClass))
      ensures hid.WeightRows()
              == LayerDelta(old(hid.WeightRows()), inp.output[..], learningRate,
                   HiddenSignals(act, hidLayerActType, hid.output[..], OutputSignals(act, outLayerActType, out.output[..], targetClass), out.WeightRows()))
      ensures hid.bias[..]
              == BiasDelta(old(hid.bias[..]), learningRate,
                   HiddenSignals(act, hidLayerActType, hid.output[..], OutputSignals(act, outLayerActType, out.output[..], targetClass), out.WeightRows()))
    {
      BackPropagateOutputLayer(targetClass);
      BackPropagateHiddenLayer(targetClass);
    }

    /**
     * getNetworkClassification: a scan of the output layer keeping a running
     * maximum that starts at 0 and moves only on a strictly greater output.
     */
    method GetNetworkClassification() returns (maxInd: int)
      requires Valid()
      ensures maxInd == Classification(out.output[..])
      ensures 0 <= maxInd && (out.ncount > 0 ==> maxInd < out.ncount)
      ensures (exists j :: 0 <= j < out.ncount && out.output[j] > 0.0) ==> IsFirstMaximum(out.output[..], maxInd)
      ensures (forall j :: 0 <= j < out.ncount ==> out.output[j] <= 0.0) ==> maxInd == 0
    {
      var maxOut := 0.0;
      maxInd := 0;
      var i := 0;
      while i < out.ncount
        invariant 0 <= i <= out.ncount
        invariant 0 <= maxInd && Best(maxOut, maxInd) == Scan(out.output[..], i)
      {
        if out.output[i] > maxOut {
          maxOut := out.output[i];
          maxInd := i;
        }
        i := i + 1;
      }
      ClassificationRule(out.output[..]);
    }
  }
}

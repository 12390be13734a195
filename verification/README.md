# mnist-3lnn: the network arena and its in-place passes, in Dafny

mnist-3lnn is a small C program that trains a 3-layer feed-forward network
(INPUT, HIDDEN, OUTPUT) on MNIST digits. The whole network is one
allocation:

- a `Network` header, which holds six node and layer byte sizes, the learning
  rate and the two activation types;
- the three layers, back to back;
- in each layer, an `ncount` field and then `ncount` nodes;
- in each node, `bias`, `output` and `wcount`, followed by `wcount` weights.

Nodes have one size inside a layer and different sizes across layers. Layers
and nodes are therefore found by computed byte offsets (`getLayer`,
`getNode`) rather than by stored pointers.

This project models that core in four modules:

- **Layout** (`layout.dfy`) holds the byte arithmetic: the size table
  `createNetwork` computes, the layer offsets of `getLayer` and the node
  offsets of `getNode`. `sizeof(Node)`, `sizeof(Layer)` and
  `sizeof(Network)` are kept symbolic, and `sizeof(double)` is 8. It proves
  four things: the layers tile the allocation; every in-range node lies
  inside its layer; distinct nodes are disjoint; and the stride `getNode`
  derives from `nodes[0].wcount` is the stored node size.
- **Kernels** (`kernels.dfy`) holds the values the passes compute, stated
  over sequences:
  - a layer's weights seen as one row per node;
  - the weighted sum of `calcNodeOutput`;
  - the error signals and the delta rule of back-propagation;
  - the values `initWeights` draws.
- **Classifier** (`classifier.dfy`) holds the arg-max rule of
  `getNetworkClassification`, the node id the header promises, and the
  relation between the two.
- **Net** (`network.dfy`) holds the state as classes:
  - `Vector`;
  - `Layer`, with per-node `bias`, `output` and `wcount` arrays and one
    flat weight buffer in which node `o`'s weight `i` sits at
    `o * stride + i`, mirroring the byte stride of the arena;
  - `Network`.

  Construction, default setting, weight initialisation, `feedInput`, the
  forward pass, the delta rule, back-propagation and the classifier are
  methods that write these arrays in place. Each method's postcondition ties
  the new state to a Kernels or Classifier function of the old state.

Node values are C `double`s and are modelled as `real`. The logistic and
hyperbolic-tangent functions are uninterpreted: they form an `Activations`
value that a `Network` is created with and that every pass uses. The C library's `rand()` becomes a supplied sequence of
draws in [0, 1], consumed in the order the code calls it.

Back-propagation follows the code rather than the textbook algorithm:

- `backPropagateNetwork` updates the output layer first.
- `backPropagateHiddenLayer` then reads `on->weights[h]`, which are the
  output weights as that first step left them, not the weights of the
  forward pass.

`Net.Network.BackPropagateHiddenLayer` and `Net.Network.BackPropagateNetwork`
state the hidden update over those updated weights.
`Kernels.ErrorSumAfterOutputUpdate` gives the exact difference: hidden node
`h`'s error sum moves by `learningRate * x[h] * Σ sigs[o]²`.

## Model

| member | source | states |
|---|---|---|
| Layout.SizeTableFor | 3lnn.c:507-519 | No contract of its own: the six sizes `createNetwork` computes. `Layout.SizeTableMatchesRecords` states them as record sizes. |
| Layout.AllocationSize | 3lnn.c:522 | No contract of its own: the bytes `malloc` is asked for. `Layout.LayersTileAllocation` shows the last layer ends exactly there. |
| Layout.LayerOffset | 3lnn.c:41-66 | The offset `getLayer` adds for a layer leaves room for the whole layer inside the region of the three layers. |
| Layout.NodeOffset | 3lnn.c:22-30 | The product `nodeId * nodeSize` that `getNode` adds equals stepping a byte pointer `nodeId` times by the node size. |
| Layout.InitNetworkCopies | 3lnn.c:414-438 | The three `memcpy` targets start right after the header and follow one another. The last one ends at the allocation size. |
| Layout.SizeTableMatchesRecords | 3lnn.c:507-519 | Stored node sizes: an input node is a bare `Node`, and a hidden (output) node carries one double per input (hidden) node. Each stored layer size is the `Layer` header plus `count` such nodes. |
| Layout.LayersTileAllocation | 3lnn.c:41-66 | INPUT starts right after the header, HIDDEN where INPUT ends, OUTPUT where HIDDEN ends, and OUTPUT ends at the allocation size. These are the three ranges `initNetwork` copies the layers into. |
| Layout.LayersDisjoint | 3lnn.c:41-66 | Two distinct layers occupy disjoint byte ranges. |
| Layout.NodeWithinLayer | 3lnn.c:22-30 | For `id < ncount`, the node `getNode` finds lies entirely inside its layer. |
| Layout.NodesDisjoint | 3lnn.c:22-30 | Distinct node ids of one layer give disjoint byte ranges. |
| Layout.NodesOfDistinctLayersDisjoint | 3lnn.h:63-74 | In-range nodes of two different layers never overlap. |
| Layout.WeightWithinNode | 3lnn.h:39-44 | Weight `i < wcount` lies inside its node, after the bias/output/wcount fields, and the trailing weights end exactly where the node ends. |
| Layout.WalkDistance | 3lnn.c:118-124 | Advancing a byte pointer `steps` times by `step` bytes, as the `sbptr += …` loops of `updateNodeWeights`, `calcNodeOutput` and `initWeights` do, moves it `steps * step` bytes. |
| Layout.WalkReachesNode | 3lnn.c:321-335 | The loops that step `sbptr` by the stored node size, and `feedInput`'s `iln++` (a step of `sizeof(Node)`), reach the node `getNode` finds. The latter holds only because an input node is a bare `Node`. |
| Net.Network.GetLayer | 3lnn.c:41-66 | No contract of its own: the layer object `getLayer` selects. Its byte offset is `Layout.LayerOffset`, and `Layout.LayersTileAllocation` and `Net.Network.NodeInArena` state where it lies. |
| Net.Network.NodeStrideMatchesTable | 3lnn.c:22-30 | The node size `getNode` computes from `nodes[0].wcount` equals the node size stored in the header. |
| Net.Network.NodeInArena | 3lnn.c:22-30 | Every node `getNode` can reach lies inside its layer, and every layer inside the allocation. |
| Kernels.Activate | 3lnn.c:234-235 | No contract of its own: tanh for TANH, the logistic function otherwise. `Net.Layer.ActivateNode` states its effect on a node. |
| Kernels.Derivative | 3lnn.c:86-87 | No contract of its own: `1 - tanh(y)²` for TANH and `y * (1 - y)` otherwise, of the activated output `y`. The signal functions that `Net.Network.OutputErrorSignal` and `Net.Network.HiddenErrorSignal` are proved against use it. |
| Net.Network.GetActFctDerivative | 3lnn.c:78-90 | No contract of its own: the derivative under the hidden type for HIDDEN and under the output type otherwise. |
| Kernels.OffsetIsProduct | 3lnn.c:27 | The row offset reached by stepping is the product `o * s`. |
| Kernels.OffsetBefore | 3lnn.h:53-56 | Node `o1 < o2` ends no later than node `o2` begins in the flat buffer. |
| Kernels.RowsAt | 3lnn.h:39-44 | Weight `i` of node `o` is buffer entry `o * s + i`, which lies inside the buffer. |
| Kernels.RowsReplace | 3lnn.c:120-124 | Rewriting exactly node `o`'s entries replaces row `o` and leaves every other row as it was. |
| Kernels.RowsDetermineBuffer | 3lnn.h:53-56 | The row view loses nothing: two buffers with the same rows are equal. |
| Kernels.DotReadsPrefix | 3lnn.c:272-276 | The weighted sum over `i < n` depends only on the first `n` outputs and weights. |
| Kernels.LayerDeltaUpToEnds | 3lnn.c:182-193 | Before the node loop, no row has moved. After it, every row has had the delta rule applied. |
| Kernels.LayerDeltaStep | 3lnn.c:191 | Updating node `k` advances the part-way layer by exactly row `k`. |
| Kernels.BiasDeltaUpToEnds | 3lnn.c:127 | Before the node loop, no bias has moved. After it, every bias has moved by `rate * signal`. |
| Kernels.BiasDeltaStep | 3lnn.c:127 | Moving bias `k` by `rate * 1 * e` advances the part-way biases by exactly node `k`. |
| Kernels.ErrorSumStep | 3lnn.c:159 | Adding one output node's signal times its weight `h` extends the error sum by that node. |
| Kernels.HiddenSignalsAt | 3lnn.c:162 | Hidden node `h`'s signal is its full error sum times the derivative at its output. |
| Kernels.ErrorSumAfterOutputUpdate | 3lnn.c:206-212 | Because the output layer is updated first, the hidden error sums read weights that have already moved. Each sum differs from the forward-pass one by `rate * x[h] * Σ sigs[o]²`. |
| Kernels.InitialWeight | 3lnn.c:483-484 | A weight drawn from r in [0, 1] lies in [-0.7, 0.7]. It is non-positive at an odd index and non-negative at an even one. |
| Kernels.InitialBias | 3lnn.c:488-489 | A bias drawn from r in [0, 1] lies in [-1, 1]. It is non-positive at an odd node index and non-negative at an even one. |
| Kernels.InitialLayerSigns | 3lnn.c:468-494 | Every weight and bias `initWeights` gives a layer has the bounds and signs above. |
| Classifier.Scan | 3lnn.c:557-568 | The running maximum after `n` outputs is at least 0 and at least every output seen. Its index is the first output reaching it, or 0 while no output has been positive. |
| Classifier.Classification | 3lnn.c:553-571 | For a non-empty output layer, the result is an index within it. `Classifier.ClassificationRule` states which index. |
| Classifier.ClassificationRule | 3lnn.c:553-571 | The result is an index of the output layer. When some output is positive, it is the lowest index of a maximal output. When none is, it is 0. |
| Classifier.ZeroFloorCounterexample | 3lnn.c:557-567 | For outputs [-2, -1] the code returns 0, although node 1 has the higher output. |
| Classifier.HighestFrom | 3lnn.h:123-128 | The scan seeded with the first output returns the lowest index of a maximum of the first `n` outputs. |
| Classifier.HighestOutput | 3lnn.h:123-128 | The id of the highest-output node, the lowest one on ties. |
| Classifier.ClassificationIsHighestWhenPositive | 3lnn.h:123-128 | When some output is positive, the code's scan returns the header's highest-output node. |
| Net.Vector.constructor | 3lnn.h:27-30 | A `Vector` holds exactly `size` values. |
| Net.Layer.WeightRows | 3lnn.h:39-44 | The layer's buffer seen as `ncount` rows of `wcount` weights each. |
| Net.Layer.CreateInput | 3lnn.c:345-369 | `inpCount` nodes, each with `wcount` 0, bias 0 and output 0, in fresh arrays. |
| Net.Layer.Create | 3lnn.c:379-401 | `nodeCount` nodes, each with `wcount == weightCount`, bias 0, output 0 and every weight 0, in fresh arrays. |
| Net.Layer.InitWeights | 3lnn.c:468-494 | Node by node, the weights and then the bias take the next draws, consuming exactly `ncount * (wcount + 1)` of them. The layer ends with `InitialRows` and `InitialBiases` of those draws. Only weights and biases change. |
| Net.Layer.InitNode | 3lnn.c:478-492 | One pass of the node loop writes node `o`'s row and bias from the draws at the cursor and leaves every other node. The cursor moves on by `wcount + 1`. |
| Net.Layer.ActivateNode | 3lnn.c:224-237 | Exactly node `id`'s output is replaced, by tanh for TANH and by the logistic function otherwise. |
| Net.Layer.CalcNodeOutput | 3lnn.c:249-278 | Exactly node `id`'s output becomes its bias plus Σ `x[i] * weights[i]` over the previous layer. Every other output is unchanged. |
| Net.Layer.UpdateNodeWeights | 3lnn.c:103-129 | Exactly node `id`'s row moves by `rate * x[i] * error` and its bias by `rate * 1 * error`. Every other row and bias is unchanged. |
| Net.Network.constructor | 3lnn.c:505-543 | The network, its three layers and every array of theirs are newly allocated, as the one `malloc` provides, so a caller may run every pass on them. The result has the size table for the requested counts and the requested `ncount`s. Input nodes have `wcount` 0 and bias 0; hidden nodes have `wcount == inpCount`; output nodes have `wcount == hidCount`. All outputs are 0, both activation types are SIGMOID and the learning rate is 0.2. HIDDEN gets the first draws and OUTPUT the draws after them. |
| Net.Network.SetNetworkDefaults | 3lnn.c:448-457 | Both layers use SIGMOID, and the learning rate is 0.2 because the second assignment wins. |
| Net.Network.InitWeights | 3lnn.c:468-494 | `initWeights(nn, HIDDEN/OUTPUT)` writes only that layer's weights and biases, as `Net.Layer.InitWeights` states. |
| Net.Network.FeedInput | 3lnn.c:321-335 | Input node `i`'s output becomes `v->vals[i]` for every `i < v->size`. The remaining input outputs are unchanged, and nothing else is written. |
| Net.Network.ActivateNode | 3lnn.c:224-237 | A HIDDEN node is activated with `hidLayerActType`, any other with `outLayerActType`. |
| Net.Network.CalcNodeOutput | 3lnn.c:249-278 | The previous layer of HIDDEN is INPUT and of OUTPUT is HIDDEN. Only that node's output is written. |
| Net.Network.CalcLayer | 3lnn.c:289-297 | Every node of the layer, in index order, is computed and then activated. Only this layer's outputs change, and they become `LayerOutputs` of the previous layer. |
| Net.Network.FeedForwardNetwork | 3lnn.c:307-310 | HIDDEN is computed from INPUT, then OUTPUT from the new HIDDEN outputs. Weights, biases and input outputs are unchanged. |
| Net.Network.UpdateNodeWeights | 3lnn.c:103-129 | The delta rule on one node of one layer, with the previous layer's outputs and the network's learning rate. |
| Net.Network.OutputErrorSignal | 3lnn.c:186-189 | Output node `o`'s signal is (target - output) times the derivative at its output, where the target is 1 for the target class and 0 otherwise. |
| Net.Network.BackPropagateOutputLayer | 3lnn.c:178-195 | Every output node's row and bias move by the delta rule with its error signal. Outputs are unchanged. |
| Net.Network.OutputCellErrorSum | 3lnn.c:150-160 | Hidden node `h`'s error sum is Σ over output nodes of signal times current weight `h`. |
| Net.Network.HiddenErrorSignal | 3lnn.c:162 | Hidden node `h`'s signal is its error sum times the derivative at its output. |
| Net.Network.BackPropagateHiddenLayer | 3lnn.c:140-167 | Every hidden row and bias moves by the delta rule with the hidden signals. Those signals are computed from the output weights as they are when the loop runs. |
| Net.Network.BackPropagateNetwork | 3lnn.c:206-212 | Output layer first, then hidden layer over the updated output weights. No output, `wcount` or `ncount` changes. |
| Net.Network.GetNetworkClassification | 3lnn.c:553-571 | The result is `Classification` of the output layer. It lies in `[0, ncount)` for a non-empty layer. It is the first maximal index when some output is positive, and 0 when none is. |

## Left out

- Floating point: doubles are reals, so rounding, overflow to infinity and NaN are not modelled.
- `exp` and `tanh` are uninterpreted functions.
- The TANH branch of `getActFctDerivative` applies `tanh` once more to an output that is already activated (3lnn.c:86). The model reproduces this as written and proves nothing about it.
- C `int` width: byte sizes and counts are unbounded naturals. The overflow of `inpCount * inpNodeSize` and similar products for huge counts is not modelled.
- `malloc`, `memcpy` and `free`: the temporary layers of `initNetwork` and their byte copies are modelled by their resulting contents. An unchecked allocation failure is not modelled.
- `offsetof` of each flexible array member is taken to equal its record's `sizeof`. Padding between the fields is not modelled.
- `rand()`: replaced by a supplied sequence of draws in [0, 1]. The seed and the distribution are not modelled.
- `Kernels.Derivative` and `Net.Network.GetActFctDerivative` (`getActFctDerivative`), `Kernels.Activate`, `Layout.SizeTableFor` and `Layout.AllocationSize` are definitions without postconditions of their own. The methods proved against them, and the Layout lemmas, state their properties.
- The arena itself is not one byte array in the model. Each layer's fields live in their own arrays, and the Layout lemmas show that the byte ranges those fields stand for are disjoint.
- Net.Network.CalcNodeOutput: requires a layer other than INPUT. `calcLayer` is only called with HIDDEN and OUTPUT (3lnn.c:308-309); on INPUT it would read weights past a node that has none.
- Net.Network.CalcLayer: requires a layer other than INPUT, for the same reason.
- Net.Network.InitWeights: requires a layer other than INPUT. The code never calls it with INPUT; doing so would step through the input layer with the output node size.
- Net.Network.constructor: calls `Net.Layer.InitWeights` on HIDDEN and OUTPUT directly, rather than through `Net.Network.InitWeights`. The effect is the same.
- Net.Network.FeedInput: requires `v->size <= inpCount`, which the code assumes without checking.
- `displayNetworkWeightsForDebugging` is console output, and it reads a hard-coded 10 nodes whatever `ncount` is.
- main.c is not part of this model: MNIST file reading, the training and testing loops, timing and screen output.
- util/ is not part of this model: terminal rendering and accuracy statistics.

## Findings

| source | as written | input that shows it | evidently intended | confidence | as-written member | corrected member |
|---|---|---|---|---|---|---|
| 3lnn.c:557-567 | The running maximum starts at 0, so an output counts only if it exceeds 0. When every output is 0 or negative the result is 0, whatever the outputs are. | Output layer [-2, -1]: the result is 0, but node 1 has the highest output. | The id of the highest-output node, as 3lnn.h:123-128 describes. This needs a maximum seeded with the first output. | low: not executed; a sigmoid output layer never goes negative | Classifier.ZeroFloorCounterexample | Classifier.HighestOutput |

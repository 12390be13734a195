/**
 * The values the in-place passes compute, stated over sequences.
 *
 * A layer's weights are one flat buffer in which node `o`'s weight `i` sits at
 * `Offset(o, stride) + i`, that is `o * stride + i`, mirroring the byte stride of the arena; `Rows` views that
 * buffer as one weight vector per node. Node values are C doubles, idealised
 * here as reals; the activation functions are left uninterpreted.
 */
module Kernels {
  import opened Layout

  /** The logistic sigmoid and the hyperbolic tangent, uninterpreted. */
  datatype Activations = Activations(sigmoid: real -> real, tanh: real -> real)

  /** activateNode: tanh for a TANH layer, the logistic function otherwise. */
  function Activate(a: Activations, t: ActFctType, x: real): real {
    if t == TANH then a.tanh(x) else a.sigmoid(x)
  }

  /**
   * getActFctDerivative, applied to an already-activated output `y`.
   * The TANH branch applies tanh to `y` once more, as the code does.
   */
  function Derivative(a: Activations, t: ActFctType, y: real): real {
    if t == TANH then 1.0 - a.tanh(y) * a.tanh(y) else y * (1.0 - y)
  }

  // ---------------------------------------------------------------------------
  // Node rows of a flat weight buffer

  /**
   * Index of the first entry of record `o` when every record is `s` entries long:
   * a pointer stepped `o` times by `s` from the start of the buffer.
   */
  function Offset(o: nat, s: nat): nat {
    Walk(0, s, o)
  }

  /** The offset is the product `o * s`. */
  lemma OffsetIsProduct(o: nat, s: nat)
    ensures Offset(o, s) == o * s
  {
    WalkDistance(0, s, o);
  }

  /** Record `o1` ends no later than record `o2` begins: `Layout.RowBefore` read through the stepped offset. */
  lemma OffsetBefore(o1: nat, o2: nat, s: nat)
    requires o1 < o2
    ensures Offset(o1, s) + s <= Offset(o2, s)
  {
    OffsetIsProduct(o1, s);
    OffsetIsProduct(o2, s);
    RowBefore(o1, o2, s);
  }

  /** The weights of node `o` in a buffer of `n` nodes with `s` weights each. */
  function Row(w: seq<real>, s: nat, n: nat, o: nat): (r: seq<real>)
    requires |w| == n * s && o < n
    ensures |r| == s
  {
    OffsetIsProduct(n, s);
    OffsetBefore(o, n, s);
    w[Offset(o, s) .. Offset(o, s) + s]
  }

  /** The buffer seen as one weight vector per node. */
  function Rows(w: seq<real>, s: nat, n: nat): (rows: seq<seq<real>>)
    requires |w| == n * s
    ensures |rows| == n
    ensures forall o :: 0 <= o < n ==> |rows[o]| == s
  {
    seq(n, o requires 0 <= o < n => Row(w, s, n, o))
  }

  /** Weight `i` of node `o` is buffer entry `o * s + i`. */
  lemma RowsAt(w: seq<real>, s: nat, n: nat, o: nat, i: nat)
    requires |w| == n * s && o < n && i < s
    ensures Offset(o, s) + i < |w|
    ensures Rows(w, s, n)[o][i] == w[Offset(o, s) + i]
  {
    OffsetIsProduct(n, s);
    OffsetBefore(o, n, s);
  }

  /** Rewriting exactly the entries of node `o` with `r` replaces row `o` by `r` and leaves the other rows. */
  lemma RowsReplace(w0: seq<real>, w1: seq<real>, s: nat, n: nat, o: nat, r: seq<real>)
    requires |w0| == n * s && |w1| == n * s && o < n && |r| == s
    requires forall k :: Offset(o, s) <= k < Offset(o, s) + s && k < |w1| ==> w1[k] == r[k - Offset(o, s)]
    requires forall k :: 0 <= k < |w0| && (k < Offset(o, s) || Offset(o, s) + s <= k) ==> w1[k] == w0[k]
    ensures Rows(w1, s, n) == Rows(w0, s, n)[o := r]
  {
    OffsetIsProduct(n, s);
    OffsetBefore(o, n, s);
    forall p | 0 <= p < n
      ensures Rows(w1, s, n)[p] == Rows(w0, s, n)[o := r][p]
    {
      OffsetBefore(p, n, s);
      if p < o {
        OffsetBefore(p, o, s);
      } else if o < p {
        OffsetBefore(o, p, s);
      }
      assert Row(w1, s, n, p) == Rows(w0, s, n)[o := r][p];
    }
  }

  /** The row view loses nothing: two buffers of one shape with the same rows are equal. */
  lemma RowsDetermineBuffer(w1: seq<real>, w2: seq<real>, s: nat, n: nat)
    requires |w1| == n * s && |w2| == n * s
    requires Rows(w1, s, n) == Rows(w2, s, n)
    ensures w1 == w2
  {
    forall k | 0 <= k < |w1|
      ensures w1[k] == w2[k]
    {
      assert s != 0;
      var o, i := k / s, k % s;
      assert k == o * s + i;
      if o >= n {
        MulMono(n, o, s);
      }
      OffsetIsProduct(o, s);
      RowsAt(w1, s, n, o, i);
      RowsAt(w2, s, n, o, i);
    }
  }

  // ---------------------------------------------------------------------------
  // Forward pass

  /** Sum of x[i] * w[i] over i < n, accumulated from index 0 upward. */
  function Dot(x: seq<real>, w: seq<real>, n: nat): real
    requires n <= |x| && n <= |w|
  {
    if n == 0 then 0.0 else Dot(x, w, n - 1) + x[n - 1] * w[n - 1]
  }

  /** The weighted sum reads only the first `n` entries of each operand. */
  lemma {:induction false} DotReadsPrefix(x: seq<real>, w: seq<real>, x': seq<real>, w': seq<real>, n: nat)
    requires n <= |x| && n <= |w| && n <= |x'| && n <= |w'|
    requires x[..n] == x'[..n] && w[..n] == w'[..n]
    ensures Dot(x, w, n) == Dot(x', w', n)
  {
    if n > 0 {
      assert x[..n - 1] == x[..n][..n - 1] && x'[..n - 1] == x'[..n][..n - 1];
      assert w[..n - 1] == w[..n][..n - 1] && w'[..n - 1] == w'[..n][..n - 1];
      assert x[n - 1] == x[..n][n - 1] && x'[n - 1] == x'[..n][n - 1];
      assert w[n - 1] == w[..n][n - 1] && w'[n - 1] == w'[..n][n - 1];
      DotReadsPrefix(x, w, x', w', n - 1);
    }
  }

  /** calcNodeOutput followed by activateNode: bias plus the weighted previous outputs, activated. */
  function NodeOutput(a: Activations, t: ActFctType, bias: real, row: seq<real>, x: seq<real>): real
    requires |row| == |x|
  {
    Activate(a, t, bias + Dot(x, row, |x|))
  }

  /** calcLayer: every node's output from the previous layer's outputs `x`. */
  function LayerOutputs(a: Activations, t: ActFctType, bias: seq<real>, rows: seq<seq<real>>, x: seq<real>): (ys: seq<real>)
    requires |rows| == |bias|
    requires forall o :: 0 <= o < |rows| ==> |rows[o]| == |x|
    ensures |ys| == |bias|
  {
    seq(|bias|, o requires 0 <= o < |bias| => NodeOutput(a, t, bias[o], rows[o], x))
  }

  // ---------------------------------------------------------------------------
  // Backward pass

  /** The desired output of output node `o` for a given targetClass. */
  function Target(o: nat, targetClass: int): real {
    if o == targetClass then 1.0 else 0.0
  }

  /** The error signal of every output node: (target - output) times the derivative at the output. */
  function OutputSignals(a: Activations, t: ActFctType, ys: seq<real>, targetClass: int): (sigs: seq<real>)
    ensures |sigs| == |ys|
  {
    seq(|ys|, o requires 0 <= o < |ys| => (Target(o, targetClass) - ys[o]) * Derivative(a, t, ys[o]))
  }

  /** The delta rule on one node's weights: weight i moves by rate * x[i] * e. */
  function DeltaRow(row: seq<real>, x: seq<real>, rate: real, e: real): (r: seq<real>)
    requires |row| <= |x|
    ensures |r| == |row|
  {
    seq(|row|, i requires 0 <= i < |row| => row[i] + rate * x[i] * e)
  }

  /** The delta rule applied once to every node of a layer, node `o` with signal sigs[o]. */
  function LayerDelta(rows: seq<seq<real>>, x: seq<real>, rate: real, sigs: seq<real>): (r: seq<seq<real>>)
    requires |sigs| == |rows|
    requires forall o :: 0 <= o < |rows| ==> |rows[o]| <= |x|
    ensures |r| == |rows|
    ensures forall o :: 0 <= o < |rows| ==> |r[o]| == |rows[o]|
  {
    seq(|rows|, o requires 0 <= o < |rows| => DeltaRow(rows[o], x, rate, sigs[o]))
  }

  /** The delta rule on one bias: it moves by rate * 1 * e, its input being the constant 1. */
  function BiasStep(b: real, rate: real, e: real): real {
    b + rate * 1.0 * e
  }

  /** The bias update of every node of a layer: bias o moves by rate * sigs[o]. */
  function BiasDelta(b: seq<real>, rate: real, sigs: seq<real>): (r: seq<real>)
    requires |sigs| == |b|
    ensures |r| == |b|
  {
    seq(|b|, o requires 0 <= o < |b| => BiasStep(b[o], rate, sigs[o]))
  }

  /** A layer part-way through its update loop: the delta rule applied to nodes below `k` only. */
  function LayerDeltaUpTo(rows: seq<seq<real>>, x: seq<real>, rate: real, sigs: seq<real>, k: nat): (r: seq<seq<real>>)
    requires |sigs| == |rows| && k <= |rows|
    requires forall o :: 0 <= o < |rows| ==> |rows[o]| <= |x|
    ensures |r| == |rows|
  {
    seq(|rows|, o requires 0 <= o < |rows| => if o < k then DeltaRow(rows[o], x, rate, sigs[o]) else rows[o])
  }

  /** No node done is the layer as it was; every node done is LayerDelta. */
  lemma LayerDeltaUpToEnds(rows: seq<seq<real>>, x: seq<real>, rate: real, sigs: seq<real>)
    requires |sigs| == |rows|
    requires forall o :: 0 <= o < |rows| ==> |rows[o]| <= |x|
    ensures LayerDeltaUpTo(rows, x, rate, sigs, 0) == rows
    ensures LayerDeltaUpTo(rows, x, rate, sigs, |rows|) == LayerDelta(rows, x, rate, sigs)
  {
  }

  /** Updating node `k` advances the loop by one node. */
  lemma LayerDeltaStep(rows: seq<seq<real>>, x: seq<real>, rate: real, sigs: seq<real>, k: nat)
    requires |sigs| == |rows| && k < |rows|
    requires forall o :: 0 <= o < |rows| ==> |rows[o]| <= |x|
    ensures LayerDeltaUpTo(rows, x, rate, sigs, k + 1)
            == LayerDeltaUpTo(rows, x, rate, sigs, k)[k := DeltaRow(rows[k], x, rate, sigs[k])]
  {
  }

  /** A layer's biases part-way through its update loop: nodes below `k` updated only. */
  function BiasDeltaUpTo(b: seq<real>, rate: real, sigs: seq<real>, k: nat): (r: seq<real>)
    requires |sigs| == |b| && k <= |b|
    ensures |r| == |b|
  {
    seq(|b|, o requires 0 <= o < |b| => if o < k then BiasStep(b[o], rate, sigs[o]) else b[o])
  }

  /** No bias done is the biases as they were; every bias done is BiasDelta. */
  lemma BiasDeltaUpToEnds(b: seq<real>, rate: real, sigs: seq<real>)
    requires |sigs| == |b|
    ensures BiasDeltaUpTo(b, rate, sigs, 0) == b
    ensures BiasDeltaUpTo(b, rate, sigs, |b|) == BiasDelta(b, rate, sigs)
  {
  }

  /** Moving bias `k` of the part-way biases by rate * sigs[k] advances the loop by one node. */
  lemma BiasDeltaStep(b: seq<real>, rate: real, sigs: seq<real>, k: nat, before: seq<real>, after: seq<real>, e: real)
    requires |sigs| == |b| && k < |b|
    requires before == BiasDeltaUpTo(b, rate, sigs, k) && e == sigs[k]
    requires after == before[k := BiasStep(before[k], rate, e)]
    ensures after == BiasDeltaUpTo(b, rate, sigs, k + 1)
  {
    var lhs := BiasDeltaUpTo(b, rate, sigs, k + 1);
    assert forall o :: 0 <= o < |b| ==> lhs[o] == after[o];
  }

  /** The back-propagated error of hidden node `h`: the sum of sigs[o] times output node o's weight h, over o < n. */
  function ErrorSum(sigs: seq<real>, rows: seq<seq<real>>, h: nat, n: nat): real
    requires n <= |sigs| && n <= |rows|
    requires forall o :: 0 <= o < n ==> h < |rows[o]|
  {
    if n == 0 then 0.0 else ErrorSum(sigs, rows, h, n - 1) + sigs[n - 1] * rows[n - 1][h]
  }

  /** One more output node in the sum: add its signal times its weight `h`. */
  lemma ErrorSumStep(sigs: seq<real>, rows: seq<seq<real>>, h: nat, n: nat, sum: real, e: real, w: real)
    requires n < |sigs| && n < |rows|
    requires forall o :: 0 <= o <= n ==> h < |rows[o]|
    requires sum == ErrorSum(sigs, rows, h, n) && e == sigs[n] && w == rows[n][h]
    ensures sum + e * w == ErrorSum(sigs, rows, h, n + 1)
  {
  }

  /** The error signal of every hidden node, from the output signals and the output layer's weights `rows`. */
  function HiddenSignals(a: Activations, t: ActFctType, hs: seq<real>, sigs: seq<real>, rows: seq<seq<real>>): (r: seq<real>)
    requires |rows| == |sigs|
    requires forall o :: 0 <= o < |rows| ==> |rows[o]| == |hs|
    ensures |r| == |hs|
  {
    seq(|hs|, h requires 0 <= h < |hs| => ErrorSum(sigs, rows, h, |sigs|) * Derivative(a, t, hs[h]))
  }

  /** Hidden node h's signal is its full error sum times the derivative at its output. */
  lemma HiddenSignalsAt(a: Activations, t: ActFctType, hs: seq<real>, sigs: seq<real>, rows: seq<seq<real>>, h: nat, sum: real, d: real)
    requires |rows| == |sigs| && h < |hs|
    requires forall o :: 0 <= o < |rows| ==> |rows[o]| == |hs|
    requires sum == ErrorSum(sigs, rows, h, |sigs|) && d == Derivative(a, t, hs[h])
    ensures HiddenSignals(a, t, hs, sigs, rows)[h] == sum * d
  {
  }

  /** Sum of the squares of the first n signals. */
  function SumSquares(sigs: seq<real>, n: nat): real
    requires n <= |sigs|
  {
    if n == 0 then 0.0 else SumSquares(sigs, n - 1) + sigs[n - 1] * sigs[n - 1]
  }

  /**
   * Reading the output weights after the output layer's delta-rule update
   * shifts hidden node h's error sum by rate * x[h] * (sum of squared output
   * signals) compared with the weights of the forward pass.
   */
  lemma {:induction false} ErrorSumAfterOutputUpdate(sigs: seq<real>, rows: seq<seq<real>>, x: seq<real>, rate: real, h: nat, n: nat)
    requires |sigs| == |rows| && n <= |rows|
    requires forall o :: 0 <= o < |rows| ==> |rows[o]| <= |x|
    requires forall o :: 0 <= o < |rows| ==> h < |rows[o]|
    requires h < |x|
    ensures ErrorSum(sigs, LayerDelta(rows, x, rate, sigs), h, n)
            == ErrorSum(sigs, rows, h, n) + rate * x[h] * SumSquares(sigs, n)
  {
    if n > 0 {
      ErrorSumAfterOutputUpdate(sigs, rows, x, rate, h, n - 1);
      var s := sigs[n - 1];
      var updated := LayerDelta(rows, x, rate, sigs)[n - 1][h];
      assert updated == rows[n - 1][h] + rate * x[h] * s;
      ShiftedSumStep(ErrorSum(sigs, LayerDelta(rows, x, rate, sigs), h, n - 1), ErrorSum(sigs, rows, h, n - 1),
                     rate * x[h], SumSquares(sigs, n - 1), s, rows[n - 1][h], updated);
    }
  }

  /** A sum shifted by c * q stays shifted by c * (q + s * s) after adding s * w to it and s * (w + c * s) to its shifted copy. */
  lemma ShiftedSumStep(shifted: real, sum: real, c: real, q: real, s: real, w: real, u: real)
    requires shifted == sum + c * q
    requires u == w + c * s
    ensures shifted + s * u == (sum + s * w) + c * (q + s * s)
  {
    calc {
      shifted + s * u;
      sum + c * q + s * (w + c * s);
      sum + s * w + (c * q + c * (s * s));
      (sum + s * w) + c * (q + s * s);
    }
  }

  // ---------------------------------------------------------------------------
  // Weight initialisation

  /** initWeights' weight `i` from a draw r in [0, 1]: 0.7 * r, negated for odd i. */
  function InitialWeight(r: real, i: nat): (w: real)
    requires 0.0 <= r <= 1.0
    ensures -0.7 <= w <= 0.7
    ensures i % 2 == 1 ==> w <= 0.0
    ensures i % 2 == 0 ==> w >= 0.0
  {
    if i % 2 == 1 then -(0.7 * r) else 0.7 * r
  }

  /** initWeights' bias of node `o` from a draw r in [0, 1]: r, negated for odd o. */
  function InitialBias(r: real, o: nat): (b: real)
    requires 0.0 <= r <= 1.0
    ensures -1.0 <= b <= 1.0
    ensures o % 2 == 1 ==> b <= 0.0
    ensures o % 2 == 0 ==> b >= 0.0
  {
    if o % 2 == 1 then -r else r
  }

  /** Every draw lies in [0, 1], as rand() / RAND_MAX does. */
  predicate Draws(rands: seq<real>) {
    forall k :: 0 <= k < |rands| ==> 0.0 <= rands[k] <= 1.0
  }

  /** Node `o` consumes s + 1 draws from `start + o * (s + 1)` on: one per weight, then one for the bias. */
  function InitialRow(rands: seq<real>, start: nat, s: nat, n: nat, o: nat): (r: seq<real>)
    requires Draws(rands) && start + n * (s + 1) <= |rands| && o < n
    ensures |r| == s
  {
    OffsetIsProduct(n, s + 1);
    OffsetBefore(o, n, s + 1);
    seq(s, i requires 0 <= i < s => InitialWeight(rands[start + Offset(o, s + 1) + i], i))
  }

  /** The weights initWeights gives a layer of n nodes with s weights each, drawing from `start` on. */
  function InitialRows(rands: seq<real>, start: nat, s: nat, n: nat): (rows: seq<seq<real>>)
    requires Draws(rands) && start + n * (s + 1) <= |rands|
    ensures |rows| == n
    ensures forall o :: 0 <= o < n ==> |rows[o]| == s
  {
    seq(n, o requires 0 <= o < n => InitialRow(rands, start, s, n, o))
  }

  /** The biases initWeights gives a layer of n nodes with s weights each, drawing from `start` on. */
  function InitialBiases(rands: seq<real>, start: nat, s: nat, n: nat): (b: seq<real>)
    requires Draws(rands) && start + n * (s + 1) <= |rands|
    ensures |b| == n
  {
    OffsetIsProduct(n, s + 1);
    seq(n, o requires 0 <= o < n => OffsetBefore(o, n, s + 1); InitialBias(rands[start + Offset(o, s + 1) + s], o))
  }

  /**
   * Every weight initWeights writes lies in [-0.7, 0.7], non-positive at an odd
   * weight index and non-negative at an even one; every bias lies in [-1, 1],
   * non-positive at an odd node index and non-negative at an even one.
   */
  lemma InitialLayerSigns(rands: seq<real>, start: nat, s: nat, n: nat)
    requires Draws(rands) && start + n * (s + 1) <= |rands|
    ensures forall o, i :: 0 <= o < n && 0 <= i < s ==>
              var w := InitialRows(rands, start, s, n)[o][i];
              -0.7 <= w <= 0.7 && (i % 2 == 1 ==> w <= 0.0) && (i % 2 == 0 ==> w >= 0.0)
    ensures forall o :: 0 <= o < n ==>
              var b := InitialBiases(rands, start, s, n)[o];
              -1.0 <= b <= 1.0 && (o % 2 == 1 ==> b <= 0.0) && (o % 2 == 0 ==> b >= 0.0)
  {
    OffsetIsProduct(n, s + 1);
    forall o, i | 0 <= o < n && 0 <= i < s
      ensures var w := InitialRows(rands, start, s, n)[o][i];
              -0.7 <= w <= 0.7 && (i % 2 == 1 ==> w <= 0.0) && (i % 2 == 0 ==> w >= 0.0)
    {
      OffsetBefore(o, n, s + 1);
      assert InitialRows(rands, start, s, n)[o][i] == InitialWeight(rands[start + Offset(o, s + 1) + i], i);
    }
    forall o | 0 <= o < n
      ensures var b := InitialBiases(rands, start, s, n)[o];
              -1.0 <= b <= 1.0 && (o % 2 == 1 ==> b <= 0.0) && (o % 2 == 0 ==> b >= 0.0)
    {
      OffsetBefore(o, n, s + 1);
      assert InitialBiases(rands, start, s, n)[o] == InitialBias(rands[start + Offset(o, s + 1) + s], o);
    }
  }
}

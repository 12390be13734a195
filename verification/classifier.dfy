/**
 * The classification rule of getNetworkClassification: a scan of the output
 * layer that keeps a running maximum starting at 0 and moves it only on a
 * strictly greater output.
 */
module Classifier {

  /** The scan's running state: the largest output seen (floored at 0) and its index. */
  datatype Best = Best(maxOut: real, maxInd: nat)

  /** The running state after the first `n` outputs. */
  function Scan(outs: seq<real>, n: nat): (b: Best)
    requires n <= |outs|
    ensures b.maxOut >= 0.0
    ensures b.maxOut == 0.0 ==> b.maxInd == 0 && forall j :: 0 <= j < n ==> outs[j] <= 0.0
    ensures b.maxOut > 0.0 ==> b.maxInd < n && outs[b.maxInd] == b.maxOut
    ensures forall j :: 0 <= j < n ==> outs[j] <= b.maxOut
    ensures forall j :: 0 <= j < b.maxInd ==> outs[j] < b.maxOut
  {
    if n == 0 then Best(0.0, 0)
    else
      var b := Scan(outs, n - 1);
      if outs[n - 1] > b.maxOut then Best(outs[n - 1], n - 1) else b
  }

  /** The index getNetworkClassification returns for the output layer `outs`. */
  function Classification(outs: seq<real>): (c: nat)
    ensures |outs| > 0 ==> c < |outs|
  {
    Scan(outs, |outs|).maxInd
  }

  /** Lowest index among the maximal outputs. */
  ghost predicate IsFirstMaximum(outs: seq<real>, k: nat) {
    k < |outs|
    && (forall j :: 0 <= j < |outs| ==> outs[j] <= outs[k])
    && (forall j :: 0 <= j < k ==> outs[j] < outs[k])
  }

  /**
   * The classification is an index of the output layer; it is the lowest index
   * of a maximal output when some output is positive, and 0 when none is.
   */
  lemma ClassificationRule(outs: seq<real>)
    ensures |outs| > 0 ==> Classification(outs) < |outs|
    ensures (exists j :: 0 <= j < |outs| && outs[j] > 0.0) ==> IsFirstMaximum(outs, Classification(outs))
    ensures (forall j :: 0 <= j < |outs| ==> outs[j] <= 0.0) ==> Classification(outs) == 0
  {
  }

  /**
   * The header promises the id of the node with the highest output. With the
   * running maximum starting at 0 that fails when every output is negative:
   * for outputs [-2, -1] the classification is 0 although node 1 is higher.
   */
  lemma ZeroFloorCounterexample()
    ensures var outs := [-2.0, -1.0]; Classification(outs) == 0 && outs[1] > outs[0]
  {
    var outs := [-2.0, -1.0];
    assert Scan(outs, 1) == Best(0.0, 0);
  }

  /** The scan as the header describes it: the running maximum starts at the first output. */
  function HighestFrom(outs: seq<real>, n: nat): (k: nat)
    requires 0 < n <= |outs|
    ensures k < n
    ensures forall j :: 0 <= j < n ==> outs[j] <= outs[k]
    ensures forall j :: 0 <= j < k ==> outs[j] < outs[k]
  {
    if n == 1 then 0
    else
      var k := HighestFrom(outs, n - 1);
      if outs[n - 1] > outs[k] then n - 1 else k
  }

  /** The id of the node with the highest output (the lowest such id on ties). */
  function HighestOutput(outs: seq<real>): (k: nat)
    requires |outs| > 0
    ensures IsFirstMaximum(outs, k)
  {
    HighestFrom(outs, |outs|)
  }

  /** Where some output is positive, the code's scan and the header's promise agree. */
  lemma ClassificationIsHighestWhenPositive(outs: seq<real>)
    requires exists j :: 0 <= j < |outs| && outs[j] > 0.0
    ensures Classification(outs) == HighestOutput(outs)
  {
    ClassificationRule(outs);
  }
}

/** Comparing the choices of positions that two ways of matching make. */
module Pointwise {

  predicate NowhereLater(a: seq<nat>, b: seq<nat>) {
    |a| == |b| && forall i :: 0 <= i < |a| ==> a[i] <= b[i]
  }
}

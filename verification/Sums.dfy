/** Totals over sequences: the measures by which interleaved runs make progress. */
module Sums {

  function Sum(w: seq<nat>): nat
  {
    if w == [] then 0 else w[0] + Sum(w[1..])
  }

  lemma {:induction false} SumUpdate(w: seq<nat>, k: nat, v: nat)
    requires k < |w|
    ensures Sum(w[k := v]) + w[k] == Sum(w) + v
  {
    if k > 0 {
      assert w[k := v][1..] == w[1..][k - 1 := v];
      SumUpdate(w[1..], k - 1, v);
    } else {
      assert w[0 := v][1..] == w[1..];
    }
  }

  lemma {:induction false} SumBounds(w: seq<nat>, k: nat, m: nat)
    requires k < |w| && forall j :: 0 <= j < |w| ==> w[j] <= m
    ensures w[k] <= Sum(w) <= |w| * m
  {
    if |w| > 1 {
      var t := w[1..];
      SumBounds(t, if k > 0 then k - 1 else 0, m);
      assert (|t| + 1) * m == |t| * m + m;
    } else {
      assert w[1..] == [];
    }
  }

  lemma {:induction false} SumAtMost(w: seq<nat>)
    requires forall i :: 0 <= i < |w| ==> w[i] <= 1
    ensures Sum(w) <= |w|
  {
    if w != [] {
      SumAtMost(w[1..]);
    }
  }

  lemma {:induction false} SumZero(w: seq<nat>)
    requires forall k :: 0 <= k < |w| ==> w[k] == 0
    ensures Sum(w) == 0
  {
    if w != [] {
      SumZero(w[1..]);
    }
  }

  lemma {:induction false} SumSnoc(w: seq<nat>, x: nat)
    ensures Sum(w + [x]) == Sum(w) + x
  {
    if w != [] {
      assert (w + [x])[1..] == w[1..] + [x];
      SumSnoc(w[1..], x);
    }
  }

  lemma {:induction false} SumOrder(v: seq<nat>, w: seq<nat>)
    requires |v| == |w| && forall i :: 0 <= i < |v| ==> v[i] <= w[i]
    ensures Sum(v) <= Sum(w)
  {
    if v != [] {
      SumOrder(v[1..], w[1..]);
    }
  }

  lemma {:induction false} SumHolds(w: seq<nat>, i: nat)
    requires i < |w|
    ensures w[i] <= Sum(w)
  {
    if i > 0 {
      SumHolds(w[1..], i - 1);
    }
  }
}

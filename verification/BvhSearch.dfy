/** The two searches by which `build` places one trunk node without looking at any other:
    the range of leaves it covers, and where that range splits. */
module BvhSearch {
  import opened MortonCodes
  import opened BvhTrees
  import opened BvhSplits

  /** Position of a node of the tree between its neighbours' splits: the gap outside its
      numbered end is its parent's split, the gap outside the other end is a larger one. */
  ghost predicate Framed(s: seq<int>, i: nat, j: nat, id: nat)
    requires i < j < |s|
  {
    var m := s[Leftmost(s, i, j)];
    || (id == i == 0 && j == |s| - 1)
    || (id == j < |s| - 1 && s[j] > m && (i > 0 ==> s[i - 1] >= s[j]))
    || (id == i > 0 && s[i - 1] >= m && s[j] > s[i - 1])
  }

  lemma FramedLeft(s: seq<int>, i: nat, j: nat, id: nat, g: nat)
    requires i < j < |s| && Framed(s, i, j, id) && i < g == Leftmost(s, i, j)
    ensures Framed(s, i, g, g)
  {
    assert s[Leftmost(s, i, g)] < s[g];
  }

  lemma FramedRight(s: seq<int>, i: nat, j: nat, id: nat, g: nat)
    requires i < j < |s| && Framed(s, i, j, id) && g + 1 < j && g == Leftmost(s, i, j)
    requires forall k :: 0 <= k < |s| - 1 ==> s[k] < s[|s| - 1]
    ensures Framed(s, g + 1, j, g + 1)
  {
    assert s[Leftmost(s, g + 1, j)] <= s[g];
  }

  /** What the range search promises for trunk node `idx`: the run of equal codes to its
      right when both neighbours are equal to it, and otherwise everything on the side of the
      closer neighbour that is closer than the other neighbour, up to the exact boundary. */
  ghost predicate IsRange(mcs: seq<Code>, idx: nat, i: int, j: int)
    requires idx + 1 < |mcs|
  {
    && 0 <= i <= j < |mcs|
    && if idx == 0 then i == 0 && j == |mcs| - 1
       else if mcs[idx - 1] == mcs[idx] == mcs[idx + 1] then
         i == idx < j && mcs[j] == mcs[idx] && (j + 1 < |mcs| ==> mcs[j + 1] != mcs[idx])
       else
         var l := Common(mcs[idx - 1], mcs[idx]);
         var r := Common(mcs[idx + 1], mcs[idx]);
         if l > r then
           i < j == idx && Common(mcs[i], mcs[idx]) > r && (i > 0 ==> Common(mcs[i - 1], mcs[idx]) <= r)
         else
           i == idx < j && Common(mcs[j], mcs[idx]) > l && (j + 1 < |mcs| ==> Common(mcs[j + 1], mcs[idx]) <= l)
  }

  /** Two codes share more than `BITS - t` bits exactly when no split between them reaches `t`. */
  lemma Closer(mcs: seq<Code>, s: seq<int>, p: nat, q: nat, t: int)
    requires Sorted(mcs) && s == Splits(mcs) && p < q < |mcs|
    ensures Common(mcs[p], mcs[q]) == Common(mcs[q], mcs[p])
    ensures Common(mcs[p], mcs[q]) > BITS - t <==> forall k :: p <= k < q ==> s[k] < t
    ensures mcs[p] == mcs[q] <==> forall k :: p <= k < q ==> s[k] < 1
  {
    hide Splits;
    var g := Leftmost(s, p, q);
    RangeCommon(mcs, s, p, q, g);
    CommonSwap(mcs[p], mcs[q]);
    CommonRange(mcs[p], mcs[q]);
  }

  lemma LeftChildRange(mcs: seq<Code>, s: seq<int>, i: nat, j: nat, a: int, b: int)
    requires Sorted(mcs) && s == Splits(mcs) && i < j < |mcs| - 1
    requires s[j] > s[Leftmost(s, i, j)] && (i > 0 ==> s[i - 1] >= s[j])
    requires IsRange(mcs, j, a, b)
    ensures a == i && b == j
  {
    hide Splits, Leftmost;
    var g := Leftmost(s, i, j);
    Closer(mcs, s, i, j, s[j]);
    Closer(mcs, s, j - 1, j, s[j]);
    Closer(mcs, s, j, j + 1, s[j]);
    SplitAt(mcs, j);
    SplitAt(mcs, j + 1);
    CommonSwap(mcs[j], mcs[j + 1]);
    if a < i {
      Closer(mcs, s, a, j, s[j]);
      assert false;
    } else if i < a {
      Closer(mcs, s, a - 1, j, s[j]);
    }
  }

  lemma RightChildRange(mcs: seq<Code>, s: seq<int>, i: nat, j: nat, a: int, b: int)
    requires Sorted(mcs) && s == Splits(mcs) && 0 < i < j < |mcs|
    requires s[i - 1] >= s[Leftmost(s, i, j)] && s[j] > s[i - 1]
    requires IsRange(mcs, i, a, b)
    ensures a == i && b == j
  {
    hide Splits, Leftmost;
    var g := Leftmost(s, i, j);
    var t := s[i - 1];
    RangeCommon(mcs, s, i, j, g);
    SplitAt(mcs, i);
    SplitAt(mcs, i + 1);
    CommonSwap(mcs[i], mcs[i + 1]);
    CommonOrdered(mcs[i - 1], mcs[i], mcs[j]);
    Closer(mcs, s, i - 1, i, t);
    Closer(mcs, s, i, i + 1, t);
    if t > 0 {
      assert s[g] < t;
      if b > i { Closer(mcs, s, i, b, t); }
      if b > j {
        assert false;
      } else if b < j {
        Closer(mcs, s, i, b + 1, t);
      }
    } else {
      if b > i { Closer(mcs, s, i, b, 1); }
      if b > j {
        assert false;
      } else if b < j {
        assert false;
      }
    }
  }

  lemma TopRange(mcs: seq<Code>, s: seq<int>, i: nat, j: nat, id: nat, a: int, b: int)
    requires Sorted(mcs) && s == Splits(mcs) && i < j < |mcs| && id + 1 < |mcs|
    requires Framed(s, i, j, id) && IsRange(mcs, id, a, b)
    ensures a == i && b == j
  {
    hide Splits, Leftmost;
    if id == i == 0 && j == |s| - 1 {
    } else if id == j < |s| - 1 && s[j] > s[Leftmost(s, i, j)] && (i > 0 ==> s[i - 1] >= s[j]) {
      LeftChildRange(mcs, s, i, j, a, b);
    } else {
      RightChildRange(mcs, s, i, j, a, b);
    }
  }

  /** The range found for a number, independently of all other nodes, is the range of the
      node that has this number in the one tree rooted at 0. */
  lemma {:induction false} NodeRange(mcs: seq<Code>, s: seq<int>, i: nat, j: nat, id: nat,
                                     idx: nat, a: int, b: int)
    requires Sorted(mcs) && s == Splits(mcs) && |mcs| >= 2
    requires i < j < |mcs| && Framed(s, i, j, id) && idx + 1 < |mcs|
    requires idx in Ids(Karras(s, i, j, id)) && IsRange(mcs, idx, a, b)
    ensures var v := Sub(Karras(s, i, j, id), idx); a == Lo(v) && b == Hi(v)
    decreases j - i
  {
    hide Splits, Leftmost, Framed, IsRange;
    var t := Karras(s, i, j, id);
    var g := Leftmost(s, i, j);
    if idx == id {
      KarrasShape(s, i, j, id);
      TopRange(mcs, s, i, j, id, a, b);
    } else if idx in Ids(t.left) {
      FramedLeft(s, i, j, id, g);
      NodeRange(mcs, s, i, g, g, idx, a, b);
    } else {
      SplitsBounded(mcs, s);
      FramedRight(s, i, j, id, g);
      NodeRange(mcs, s, g + 1, j, g + 1, idx, a, b);
    }
  }

  lemma SplitsBounded(mcs: seq<Code>, s: seq<int>)
    requires s == Splits(mcs) && |s| >= 2
    ensures forall k :: 0 <= k < |s| - 1 ==> s[k] < s[|s| - 1]
  {
    forall k | 0 <= k < |s| - 1
      ensures s[k] < s[|s| - 1]
    {
      SplitAt(mcs, k + 1);
    }
  }

  /** `steps` leaves away from `left` in direction `dir`. */
  function Walk(left: int, steps: int, dir: int): int
  {
    if dir == 1 then left + steps else left - steps
  }

  ghost predicate Hit(mcs: seq<Code>, left: int, steps: int, dir: int, minLZ: int)
    requires 0 <= left < |mcs|
  {
    var p := Walk(left, steps, dir);
    0 <= p < |mcs| && Common(mcs[p], mcs[left]) > minLZ
  }

  ghost predicate PowerOfTwo(x: nat)
  {
    x == 1 || (x % 2 == 0 && x > 0 && PowerOfTwo(x / 2))
  }

  lemma Twice(x: nat)
    requires PowerOfTwo(x)
    ensures PowerOfTwo(x * 2) && x * 2 / 2 == x
  {
    assert x * 2 / 2 == x;
  }

  lemma Half(x: nat)
    requires PowerOfTwo(x)
    ensures if x == 1 then x / 2 == 0 else x == 2 * (x / 2) && PowerOfTwo(x / 2)
  {
  }

  lemma Probed(mcs: seq<Code>, left: int, k: int, dir: int, minLZ: int)
    requires 0 <= left < |mcs|
    ensures var p := Walk(left, k, dir);
            Hit(mcs, left, k, dir, minLZ) <==> 0 <= p < |mcs| && Common(mcs[p], mcs[left]) > minLZ
  {
  }

  /** The exponential search, then the binary search, for the farthest leaf in one direction
      whose code is closer than `minLZ`. */
  method FarthestHit(mcs: seq<Code>, left: int, dir: int, minLZ: int) returns (len: int)
    requires Sorted(mcs) && 0 <= left < |mcs| && (dir == 1 || dir == -1)
    requires Hit(mcs, left, 1, dir, minLZ)
    ensures len >= 1 && Hit(mcs, left, len, dir, minLZ) && !Hit(mcs, left, len + 1, dir, minLZ)
  {
    hide Common, Sorted, PowerOfTwo, Hit;
    var step := 2;
    Twice(1);
    var right := Walk(left, step, dir);
    while 0 <= right < |mcs| && Common(mcs[right], mcs[left]) > minLZ
      invariant step >= 2 && PowerOfTwo(step) && right == Walk(left, step, dir)
      invariant Hit(mcs, left, step / 2, dir, minLZ)
      decreases |mcs| - step
    {
      Twice(step);
      Probed(mcs, left, step, dir, minLZ);
      step := step * 2;
      right := Walk(left, step, dir);
    }
    Probed(mcs, left, step, dir, minLZ);
    ghost var bound := step;
    Half(step);
    step := step / 2;
    len := 0;
    while step >= 1
      invariant step >= 0 && (step == 0 || PowerOfTwo(step))
      invariant 0 <= len && bound >= 1
      invariant len == 0 || Hit(mcs, left, len, dir, minLZ)
      invariant len == 0 ==> step >= 1 && Hit(mcs, left, step, dir, minLZ)
      invariant bound == len + (if step == 0 then 1 else 2 * step)
      invariant !Hit(mcs, left, bound, dir, minLZ)
      decreases step
    {
      right := Walk(left, len + step, dir);
      Probed(mcs, left, len + step, dir, minLZ);
      Half(step);
      if 0 <= right < |mcs| {
        if Common(mcs[right], mcs[left]) > minLZ {
          len := len + step;
        } else {
          bound := len + step;
        }
      } else {
        bound := len + step;
      }
      step := step / 2;
    }
  }

  /** The range of trunk node `idx`, from the codes alone. */
  method FindRange(mcs: seq<Code>, idx: nat) returns (i: int, j: int)
    requires Sorted(mcs) && idx + 1 < |mcs|
    ensures IsRange(mcs, idx, i, j)
  {
    hide Common;
    if idx == 0 {
      return 0, |mcs| - 1;
    }
    var left, right := idx, idx;
    var preCode, curCode, nxtCode := mcs[idx - 1], mcs[idx], mcs[idx + 1];
    if preCode == curCode && curCode == nxtCode {
      right := right + 1;
      while right < |mcs| - 1 && mcs[right] == mcs[right + 1]
        invariant idx < right < |mcs| && mcs[right] == curCode
      {
        right := right + 1;
      }
      return left, right;
    }
    var lLZ, rLZ := Common(preCode, curCode), Common(nxtCode, curCode);
    CommonSwap(nxtCode, curCode);
    CommonOrdered(preCode, curCode, nxtCode);
    var dir, minLZ;
    if lLZ > rLZ {
      dir, minLZ := -1, rLZ;
    } else {
      dir, minLZ := 1, lLZ;
    }
    var len := FarthestHit(mcs, left, dir, minLZ);
    if dir == 1 {
      i, j := left, left + len;
    } else {
      i, j := left - len, left;
    }
  }

  /** Moving right from the start of a range, codes stay closer to the start than the range's
      own prefix up to the split, and never again after it. */
  lemma SplitTest(mcs: seq<Code>, s: seq<int>, i: nat, j: nat, p: nat)
    requires Sorted(mcs) && s == Splits(mcs) && i < j < |mcs| && i < p < |mcs|
    ensures Common(mcs[p], mcs[i]) > Common(mcs[i], mcs[j]) <==> p <= Leftmost(s, i, j)
  {
    hide Splits;
    var g := Leftmost(s, i, j);
    RangeCommon(mcs, s, i, j, g);
    Closer(mcs, s, i, p, s[g]);
  }

  /** The split position of a range, by the code's own rounding-up binary search. */
  method FindSplit(mcs: seq<Code>, i: nat, j: nat) returns (gamma: int)
    requires Sorted(mcs) && i < j < |mcs|
    ensures gamma == Leftmost(Splits(mcs), i, j)
  {
    hide Common, Splits, Leftmost;
    var numTrunk := |mcs| - 1;
    ghost var g := Leftmost(Splits(mcs), i, j);
    var lCode, rCode := mcs[i], mcs[j];
    if lCode == rCode {
      Closer(mcs, Splits(mcs), i, j, 1);
      SplitAt(mcs, i + 1);
      gamma := i;
    } else {
      var lz := Common(lCode, rCode);
      var step, len := (j - i + 1) / 2, 0;
      while true
        invariant step >= 1 && 0 <= len && i + len <= g < i + len + 2 * step
        decreases step
      {
        if i + len + step > numTrunk {
          step := (step + 1) / 2;
          continue;
        }
        SplitTest(mcs, Splits(mcs), i, j, i + len + step);
        if Common(mcs[i + len + step], lCode) > lz {
          len := len + step;
        }
        if step <= 1 {
          break;
        }
        step := (step + 1) / 2;
      }
      gamma := i + len;
    }
  }
}

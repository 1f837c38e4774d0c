/** Whole runs of the map: any list of operations, against a plain map. */
module RbRuns {
  import opened RbTrees
  import opened WordBits
  import opened RbContents
  import opened RbMemory
  import opened RbRepairs
  import opened RbMap

  datatype Op = Assign(key: int, value: int) | Touch(key: int) | Remove(key: int)

  /** What an operation does to a plain map; `operator[]` adds the default value 0. */
  function Apply(m: map<int, int>, op: Op): map<int, int>
  {
    match op
    case Assign(k, v) => m[k := v]
    case Touch(k) => if k in m then m else m[k := 0]
    case Remove(k) => m - {k}
  }

  function ApplyAll(m: map<int, int>, ops: seq<Op>): map<int, int>
  {
    if ops == [] then m else Apply(ApplyAll(m, ops[..|ops| - 1]), ops[|ops| - 1])
  }

  lemma {:induction false} Unused(s: set<Ref>) returns (x: Ref)
    ensures x != NULL && forall y :: y in s ==> y < x
  {
    if s == {} {
      x := 1;
    } else {
      var y :| y in s;
      var z := Unused(s - {y});
      x := if y < z then z else y + 1;
      assert forall w :: w in s ==> w == y || w in s - {y};
    }
  }

  /** Every run keeps the whole invariant, equals the plain map, and stays balanced. */
  method Run(header: Ref, ops: seq<Op>) returns (m: RBTreeMap)
    requires header != NULL
    ensures m.Valid() && m.Contents() == ApplyAll(map[], ops)
    ensures m.cnt == |Items(m.tree)| && Pow2(Height(m.tree)) <= (m.cnt + 1) * (m.cnt + 1)
  {
    m := new RBTreeMap(header, 0, 0);
    for k := 0 to |ops|
      invariant m.Valid() && m.Contents() == ApplyAll(map[], ops[..k]) && fresh(m)
    {
      hide Shows, RedBlack, EndsAre, Items, Sorted, Height, Pow2;
      assert ops[..k + 1][..k] == ops[..k];
      ghost var unused := Unused(m.heap.Keys);
      assert unused !in m.heap;
      var at: Ref :| at !in m.heap && at != NULL;
      match ops[k] {
        case Assign(key, value) =>
          m.Set(key, value, at);
        case Touch(key) =>
          InMap(Items(m.tree), key);
          PutIsUpdate(Items(m.tree), at, key, 0);
          var _ := m.GetOrDefault(key, 0, at);
        case Remove(key) =>
          var _ := m.Erase(key);
      }
    }
    assert ops[..|ops|] == ops;
    HeightBound(m.tree);
  }
}

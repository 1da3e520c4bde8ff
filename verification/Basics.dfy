/** Small arithmetic and set facts shared by the other modules. */
module Basics {
  function Min(a: nat, b: nat): nat { if a <= b then a else b }

  function Max(a: nat, b: nat): nat { if a >= b then a else b }

  /** usize::saturating_sub. */
  function SatSub(a: nat, b: nat): nat { if a >= b then a - b else 0 }

  lemma SizeSplits<T>(ids: set<T>, id: T)
    ensures |ids| == |ids - {id}| + if id in ids then 1 else 0
  {
    if id in ids {
      assert ids == (ids - {id}) + {id};
    } else {
      assert ids - {id} == ids;
    }
  }

  lemma Associative<T>(a: seq<T>, b: seq<T>, c: seq<T>)
    ensures a + (b + c) == (a + b) + c
  {}
}

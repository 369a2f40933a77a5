// Option, Result and the Rust integer widths every other module uses.
module Prelude {
  datatype Option<+T> = None | Some(value: T)

  datatype Result<+T, +E> = Ok(value: T) | Err(error: E)

  function MapSeq<A, B>(f: A -> B, s: seq<A>): (r: seq<B>)
    ensures |r| == |s| && forall i :: 0 <= i < |s| ==> r[i] == f(s[i])
  {
    seq(|s|, i requires 0 <= i < |s| => f(s[i]))
  }

  // The members of a set of positions, in ascending order.
  predicate Lists(at: seq<nat>, wanted: set<nat>) {
    && (forall a, b :: 0 <= a < b < |at| ==> at[a] < at[b])
    && (forall a :: 0 <= a < |at| ==> at[a] in wanted)
    && (forall i :: i in wanted ==> i in at)
  }

  lemma ListsSnoc(at: seq<nat>, wanted: set<nat>, n: nat)
    requires Lists(at, wanted) && forall i :: i in wanted ==> i < n
    ensures Lists(at + [n], wanted + {n})
  {
  }

  lemma {:induction false} ListsCount(at: seq<nat>, wanted: set<nat>)
    requires Lists(at, wanted)
    ensures |at| == |wanted|
    decreases |at|
  {
    if at == [] {
      assert wanted == {};
    } else {
      var n := |at| - 1;
      assert at == at[..n] + [at[n]];
      ListsCount(at[..n], wanted - {at[n]});
    }
  }

  const TWO_128: nat := 0x1_00000000_00000000_00000000_00000000
  const TWO_256: nat := 0x1_00000000_00000000_00000000_00000000_00000000_00000000_00000000_00000000

  type U8 = n: nat | n < 256
  type U128 = n: nat | n < TWO_128
  type U256 = n: nat | n < TWO_256
}

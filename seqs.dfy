/** Sequence helpers shared by the loops of the model. */
module Seqs {
  /** The concatenation of `xss`, in order. */
  function Flatten<T>(xss: seq<seq<T>>): (r: seq<T>)
    ensures |xss| == 0 ==> r == []
  {
    if xss == [] then [] else xss[0] + Flatten(xss[1..])
  }

  /** Appending one more sequence appends its elements at the end. */
  lemma {:induction false} FlattenSnoc<T>(xss: seq<seq<T>>, xs: seq<T>)
    ensures Flatten(xss + [xs]) == Flatten(xss) + xs
  {
    if xss != [] {
      assert (xss + [xs])[1..] == xss[1..] + [xs];
      FlattenSnoc(xss[1..], xs);
    } else {
      assert [xs][1..] == [];
    }
  }

  function Min(a: int, b: int): int { if a < b then a else b }
}

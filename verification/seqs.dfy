/** Sequence helpers shared by the splitters and the request driver. */
module Seqs {

  /** Concatenates a sequence of sequences in order: Python's `''.join`
      on a list of strings, and the list of all items of a list of groups. */
  function Flatten<T>(xss: seq<seq<T>>): seq<T>
  {
    if |xss| == 0 then [] else xss[0] + Flatten(xss[1..])
  }

  lemma {:induction false} FlattenAppend<T>(a: seq<seq<T>>, b: seq<seq<T>>)
    ensures Flatten(a + b) == Flatten(a) + Flatten(b)
    decreases |a|
  {
    if |a| == 0 {
      assert a + b == b;
    } else {
      assert (a + b)[1..] == a[1..] + b;
      FlattenAppend(a[1..], b);
    }
  }

  lemma AppendAssoc<T>(a: seq<T>, b: seq<T>, c: seq<T>)
    ensures a + (b + c) == (a + b) + c
  {
  }

  lemma FlattenSingleton<T>(xs: seq<T>)
    ensures Flatten([xs]) == xs
  {
    assert [xs][1..] == [];
  }

  /** Groups that are all non-empty are no more numerous than their items. */
  lemma {:induction false} FlattenCountsGroups<T>(xss: seq<seq<T>>)
    requires forall k :: 0 <= k < |xss| ==> |xss[k]| > 0
    ensures |xss| <= |Flatten(xss)|
    decreases |xss|
  {
    if |xss| > 0 {
      FlattenCountsGroups(xss[1..]);
    }
  }

  function Min(a: int, b: int): int
  {
    if a <= b then a else b
  }
}

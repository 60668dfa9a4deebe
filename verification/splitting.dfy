/** The two batch splitters of `ApiKeyTranslate.py`: `split_list`, which cuts
    a query into count-groups, and `split_list_by_content_size`, which halves
    a count-group until each part fits the content-size limit. */
module Splitting {
  import opened Seqs

  /** Default `sub_size` of `split_list`. */
  const DefaultSubSize: nat := 128
  /** Default `content_size` of `split_list_by_content_size`, in characters. */
  const DefaultContentSize: nat := 102400

  /** What `split_list` receives: a Python list, or any other object, which
      it treats as a single item. */
  datatype Input<T> = Scalar(item: T) | List(items: seq<T>)

  /** The items an input stands for, in order. */
  function Items<T>(input: Input<T>): seq<T>
  {
    match input
    case Scalar(x) => [x]
    case List(xs) => xs
  }

  /** Both splitters treat a limit below 1 as 1. */
  function AtLeastOne(n: int): (r: nat)
    ensures r >= 1
    ensures n >= 1 ==> r == n
    ensures n < 1 ==> r == 1
  {
    if n < 1 then 1 else n
  }

  // ---------------------------------------------------------------------
  // split_list
  // ---------------------------------------------------------------------

  /** `len(range(0, n, size))`: how many slices the comprehension takes. */
  function ChunkCount(n: nat, size: nat): nat
    requires size >= 1
  {
    (n + size - 1) / size
  }

  /** Slice number k starts inside the list, and the slice after the last
      one would not. */
  lemma ChunkStart(n: nat, size: nat, k: nat)
    requires size >= 1
    ensures k < ChunkCount(n, size) <==> k * size < n
  {
    var q := ChunkCount(n, size);
    var m := n + size - 1;
    assert m == q * size + m % size && 0 <= m % size < size;
    if k < q {
      assert (q - k) * size >= size by { MulAtLeast(q - k, size); }
      assert q * size == k * size + (q - k) * size;
    } else {
      assert (k - q) * size >= 0;
      assert k * size == q * size + (k - q) * size;
    }
  }

  /** A positive multiple of `b` is at least `b`. */
  lemma MulAtLeast(a: nat, b: nat)
    requires a >= 1
    ensures a * b >= b
  {
    assert a * b == (a - 1) * b + b;
  }

  /** `obj_list[start:start + size]`; Python clamps the end to the list. */
  function Slice<T>(xs: seq<T>, start: nat, size: nat): (r: seq<T>)
    requires size >= 1
    requires start < |xs|
    ensures 1 <= |r| <= size
    ensures start + size < |xs| ==> |r| == size
  {
    xs[start .. Min(start + size, |xs|)]
  }

  /** The list comprehension of `split_list` on a list, for `size >= 1`. */
  function Chunks<T>(xs: seq<T>, size: nat): (r: seq<seq<T>>)
    requires size >= 1
    ensures |r| == ChunkCount(|xs|, size)
    ensures |xs| == 0 <==> |r| == 0
    ensures forall k :: 0 <= k < |r| ==> 1 <= |r[k]| <= size
    ensures forall k :: 0 <= k < |r| - 1 ==> |r[k]| == size
  {
    var count := ChunkCount(|xs|, size);
    ChunkStart(|xs|, size, 0);
    var r := seq(count, k requires 0 <= k < count =>
                   ChunkStart(|xs|, size, k); Slice(xs, k * size, size));
    assert forall k :: 0 <= k < count - 1 ==> |r[k]| == size by {
      forall k | 0 <= k < count - 1
        ensures |r[k]| == size
      {
        ChunkStart(|xs|, size, k + 1);
        assert (k + 1) * size == k * size + size;
      }
    }
    r
  }

  /** Slice k of a list is slice k - 1 of the list without its first slice. */
  lemma SliceShift<T>(xs: seq<T>, start: nat, size: nat)
    requires size >= 1
    requires size + start < |xs|
    ensures Slice(xs, size + start, size) == Slice(xs[size..], start, size)
  {
  }

  /** A list that fits in one slice is that slice. */
  lemma ChunksShort<T>(xs: seq<T>, size: nat)
    requires size >= 1
    requires 0 < |xs| <= size
    ensures Chunks(xs, size) == [xs]
  {
    ChunkStart(|xs|, size, 0);
    ChunkStart(|xs|, size, 1);
    assert ChunkCount(|xs|, size) == 1;
    assert |Chunks(xs, size)| == 1;
    assert 0 * size == 0;
    assert Chunks(xs, size)[0] == Slice(xs, 0, size);
    assert Slice(xs, 0, size) == xs;
  }

  /** Dropping the first `size` items drops exactly one slice. */
  lemma ChunkCountStep(n: nat, size: nat)
    requires size >= 1
    requires n > size
    ensures ChunkCount(n, size) == ChunkCount(n - size, size) + 1
  {
    var c := ChunkCount(n - size, size);
    ChunkStart(n - size, size, 0);
    ChunkStart(n - size, size, c);
    ChunkStart(n - size, size, c - 1);
    ChunkStart(n, size, c + 1);
    ChunkStart(n, size, c);
    assert (c + 1) * size == c * size + size;
    assert c * size == (c - 1) * size + size;
  }

  /** Slice k of the list, for k >= 1, is slice k - 1 of its tail. */
  lemma ChunksTail<T>(xs: seq<T>, size: nat, k: nat)
    requires size >= 1
    requires |xs| > size
    requires 1 <= k < ChunkCount(|xs|, size)
    ensures ChunkCount(|xs| - size, size) == ChunkCount(|xs|, size) - 1
    ensures Chunks(xs, size)[k] == Chunks(xs[size..], size)[k - 1]
  {
    ChunkCountStep(|xs|, size);
    var start := (k - 1) * size;
    assert k * size == size + start;
    ChunkStart(|xs| - size, size, k - 1);
    assert Chunks(xs, size)[k] == Slice(xs, size + start, size);
    assert Chunks(xs[size..], size)[k - 1] == Slice(xs[size..], start, size);
    SliceShift(xs, start, size);
  }

  /** Beyond the first slice, the comprehension is the same comprehension
      on the rest of the list. */
  lemma ChunksUnfold<T>(xs: seq<T>, size: nat)
    requires size >= 1
    requires |xs| > size
    ensures Chunks(xs, size) == [xs[..size]] + Chunks(xs[size..], size)
  {
    ChunkCountStep(|xs|, size);
    var lhs := Chunks(xs, size);
    var rhs := [xs[..size]] + Chunks(xs[size..], size);
    assert 0 * size == 0;
    assert lhs[0] == Slice(xs, 0, size) == rhs[0];
    forall k | 1 <= k < |lhs|
      ensures lhs[k] == rhs[k]
    {
      ChunksTail(xs, size, k);
    }
  }

  /** Concatenating the slices gives back the list. */
  lemma {:induction false} ChunksFlatten<T>(xs: seq<T>, size: nat)
    requires size >= 1
    ensures Flatten(Chunks(xs, size)) == xs
    decreases |xs|
  {
    if |xs| == 0 {
    } else if |xs| <= size {
      ChunksShort(xs, size);
      FlattenSingleton(xs);
    } else {
      ChunksUnfold(xs, size);
      ChunksFlatten(xs[size..], size);
      FlattenAppend([xs[..size]], Chunks(xs[size..], size));
      FlattenSingleton(xs[..size]);
      assert xs[..size] + xs[size..] == xs;
    }
  }

  /** `split_list(obj_list, sub_size)`: a non-list becomes one group of one
      item; a list is cut into consecutive slices of `max(sub_size, 1)`. */
  function SplitList<T>(input: Input<T>, subSize: int): (r: seq<seq<T>>)
    ensures Flatten(r) == Items(input)
    ensures input.Scalar? ==> r == [[input.item]]
    ensures forall k :: 0 <= k < |r| ==> 1 <= |r[k]| <= AtLeastOne(subSize)
    ensures forall k :: 0 <= k < |r| - 1 ==> |r[k]| == AtLeastOne(subSize)
    ensures r == [] <==> Items(input) == []
  {
    match input
    case Scalar(x) =>
      FlattenSingleton([x]);
      [[x]]
    case List(xs) =>
      var size := AtLeastOne(subSize);
      ChunksFlatten(xs, size);
      Chunks(xs, size)
  }

  // ---------------------------------------------------------------------
  // split_list_by_content_size
  // ---------------------------------------------------------------------

  /** `len(''.join(group))`: characters (code points), not bytes. */
  function ContentLength(group: seq<string>): nat
  {
    |Flatten(group)|
  }

  /** The condition under which `split_list_by_content_size` returns a
      group whole: one item, or a joined length within the clamped limit. */
  predicate Fits(group: seq<string>, contentSize: int)
  {
    |group| == 1 || ContentLength(group) <= AtLeastOne(contentSize)
  }

  /** The two halves' groups, concatenated, are groups of the whole: they
      flatten back to it, each one fits, and there are at most as many of
      them as items. `limit` is the clamped limit the halves were split
      with. */
  lemma HalvesCombine(xs: seq<string>, mid: int, left: seq<seq<string>>, right: seq<seq<string>>, limit: int, contentSize: int)
    requires 1 <= mid < |xs| && AtLeastOne(limit) == AtLeastOne(contentSize)
    requires Flatten(left) == xs[..mid] && Flatten(right) == xs[mid..]
    requires 1 <= |left| <= mid && 1 <= |right| <= |xs| - mid
    requires forall k :: 0 <= k < |left| ==> Fits(left[k], limit) && 0 < |left[k]| <= mid
    requires forall k :: 0 <= k < |right| ==> Fits(right[k], limit) && 0 < |right[k]| <= |xs| - mid
    ensures Flatten(left + right) == xs
    ensures 1 <= |left + right| <= |xs|
    ensures forall k :: 0 <= k < |left + right| ==>
      Fits((left + right)[k], contentSize) && 0 < |(left + right)[k]| <= |xs|
  {
    FlattenAppend(left, right);
    assert xs[..mid] + xs[mid..] == xs;
    var r := left + right;
    forall k | 0 <= k < |r|
      ensures Fits(r[k], contentSize) && 0 < |r[k]| <= |xs|
    {
      if k < |left| {
        assert r[k] == left[k];
      } else {
        assert r[k] == right[k - |left|];
      }
    }
  }

  /** `split_list_by_content_size(obj_list, content_size)`: divide and
      conquer at `ceil(n / 2)` until every part fits. */
  function SplitByContentSize(xs: seq<string>, contentSize: int): (r: seq<seq<string>>)
    ensures Flatten(r) == xs
    ensures forall k :: 0 <= k < |r| ==> Fits(r[k], contentSize)
    ensures Fits(xs, contentSize) ==> r == [xs]
    ensures 1 <= |r| && (|xs| > 0 ==> |r| <= |xs|)
    ensures forall k :: 0 <= k < |r| ==> |r[k]| <= |xs|
    ensures |xs| > 0 ==> forall k :: 0 <= k < |r| ==> |r[k]| > 0
    decreases |xs|
  {
    var limit := AtLeastOne(contentSize);
    if |xs| == 1 || ContentLength(xs) <= limit then
      FlattenSingleton(xs);
      [xs]
    else
      var mid := (|xs| + 1) / 2;
      var left := SplitByContentSize(xs[..mid], limit);
      var right := SplitByContentSize(xs[mid..], limit);
      HalvesCombine(xs, mid, left, right, limit, contentSize);
      left + right
  }

  /** Re-splitting any group the splitter produced returns that group. */
  lemma SplitByContentSizeIdempotent(xs: seq<string>, contentSize: int)
    ensures forall k :: 0 <= k < |SplitByContentSize(xs, contentSize)| ==>
      SplitByContentSize(SplitByContentSize(xs, contentSize)[k], contentSize)
        == [SplitByContentSize(xs, contentSize)[k]]
  {
    var r := SplitByContentSize(xs, contentSize);
    forall k | 0 <= k < |r|
      ensures SplitByContentSize(r[k], contentSize) == [r[k]]
    {
      assert Fits(r[k], contentSize);
    }
  }

  // ---------------------------------------------------------------------
  // The nested loops `for ql in split_list(q): for qli in
  // split_list_by_content_size(ql)` of `detect` and `translate`
  // ---------------------------------------------------------------------

  /** The size-groups of each count-group, in order. */
  function SizeGroups(countGroups: seq<seq<string>>, contentSize: int): (r: seq<seq<string>>)
    ensures Flatten(r) == Flatten(countGroups)
    ensures forall k :: 0 <= k < |r| ==> Fits(r[k], contentSize)
    decreases |countGroups|
  {
    if |countGroups| == 0 then []
    else
      var first := SplitByContentSize(countGroups[0], contentSize);
      var rest := SizeGroups(countGroups[1..], contentSize);
      FlattenAppend(first, rest);
      first + rest
  }

  /** Halving never lengthens or empties a group, so count-groups of 1 to
      `n` items yield size-groups of 1 to `n` items. */
  lemma {:induction false} SizeGroupsBounded(countGroups: seq<seq<string>>, contentSize: int, n: nat)
    requires forall j :: 0 <= j < |countGroups| ==> 1 <= |countGroups[j]| <= n
    ensures forall k :: 0 <= k < |SizeGroups(countGroups, contentSize)| ==>
      1 <= |SizeGroups(countGroups, contentSize)[k]| <= n
    decreases |countGroups|
  {
    if |countGroups| > 0 {
      SizeGroupsBounded(countGroups[1..], contentSize, n);
    }
  }

  /** Every request payload of one `detect` or `translate` call, in order:
      the size-groups of the default count-groups of the query. */
  function Plan(q: Input<string>): (r: seq<seq<string>>)
    ensures Flatten(r) == Items(q)
    ensures forall k :: 0 <= k < |r| ==> 1 <= |r[k]| <= DefaultSubSize
    ensures forall k :: 0 <= k < |r| ==> Fits(r[k], DefaultContentSize)
    ensures q.Scalar? ==> r == [[q.item]]
    ensures r == [] <==> Items(q) == []
  {
    var countGroups := SplitList(q, DefaultSubSize);
    SizeGroupsBounded(countGroups, DefaultContentSize, DefaultSubSize);
    var r := SizeGroups(countGroups, DefaultContentSize);
    if q.Scalar? then
      assert SizeGroups(countGroups[1..], DefaultContentSize) == [];
      assert SplitByContentSize([q.item], DefaultContentSize) == [[q.item]];
      r
    else
      r
  }
}

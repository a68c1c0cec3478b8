/**
 * Sequences built block by block, as a Python list grown by repeated `extend`.
 * A list of blocks is flattened by `Concat`; `Offset` says where a block lands
 * in the flattened list and `Owner` says which block a flattened position came from.
 */
module Seqs {

  /** The blocks joined end to end, in order. */
  function Concat<T>(blocks: seq<seq<T>>): (r: seq<T>)
    ensures |r| == TotalLength(blocks)
    decreases |blocks|
  {
    if blocks == [] then [] else Concat(blocks[..|blocks| - 1]) + blocks[|blocks| - 1]
  }

  /** The sum of the block lengths. */
  function TotalLength<T>(blocks: seq<seq<T>>): nat
    decreases |blocks|
  {
    if blocks == [] then 0 else TotalLength(blocks[..|blocks| - 1]) + |blocks[|blocks| - 1]|
  }

  /** The index in Concat(blocks) at which block i begins. */
  function Offset<T>(blocks: seq<seq<T>>, i: nat): nat
    requires i <= |blocks|
  {
    |Concat(blocks[..i])|
  }

  /** `x` repeated `n` times, as Python's `[x] * n`. */
  function Repeat<T>(x: T, n: nat): (r: seq<T>)
    ensures |r| == n && forall k :: 0 <= k < n ==> r[k] == x
  {
    seq(n, _ => x)
  }

  /** Extending the flattened prefix by the next block gives the next flattened prefix. */
  lemma ConcatStep<T>(blocks: seq<seq<T>>, i: nat)
    requires i < |blocks|
    ensures Concat(blocks[..i + 1]) == Concat(blocks[..i]) + blocks[i]
  {
    assert blocks[..i + 1][..i] == blocks[..i];
  }

  lemma {:induction false} ConcatAppend<T>(a: seq<seq<T>>, b: seq<seq<T>>)
    ensures Concat(a + b) == Concat(a) + Concat(b)
    decreases |b|
  {
    if b == [] {
      assert a + b == a;
    } else {
      var front := b[..|b| - 1];
      assert (a + b)[..|a + b| - 1] == a + front;
      ConcatAppend(a, front);
    }
  }

  /** Block i occupies the positions from Offset(i) up to Offset(i + 1). */
  lemma OffsetNext<T>(blocks: seq<seq<T>>, i: nat)
    requires i < |blocks|
    ensures Offset(blocks, i + 1) == Offset(blocks, i) + |blocks[i]|
  {
    ConcatStep(blocks, i);
  }

  lemma {:induction false} OffsetMonotone<T>(blocks: seq<seq<T>>, i: nat, k: nat)
    requires i <= k <= |blocks|
    ensures Offset(blocks, i) <= Offset(blocks, k)
    decreases k - i
  {
    if i < k {
      OffsetNext(blocks, i);
      OffsetMonotone(blocks, i + 1, k);
    }
  }

  lemma OffsetWhole<T>(blocks: seq<seq<T>>)
    ensures Offset(blocks, |blocks|) == |Concat(blocks)|
  {
    assert blocks[..|blocks|] == blocks;
  }

  /** Element t of block i is element Offset(i) + t of the flattened sequence. */
  lemma ConcatAt<T>(blocks: seq<seq<T>>, i: nat, t: nat)
    requires i < |blocks| && t < |blocks[i]|
    ensures Offset(blocks, i) + t < |Concat(blocks)|
    ensures Concat(blocks)[Offset(blocks, i) + t] == blocks[i][t]
  {
    assert blocks == blocks[..i + 1] + blocks[i + 1..];
    ConcatAppend(blocks[..i + 1], blocks[i + 1..]);
    ConcatStep(blocks, i);
  }

  /** Slicing the flattened sequence between consecutive offsets gives back block i. */
  lemma BlockSlice<T>(blocks: seq<seq<T>>, i: nat)
    requires i < |blocks|
    ensures Offset(blocks, i) + |blocks[i]| == Offset(blocks, i + 1) <= |Concat(blocks)|
    ensures Concat(blocks)[Offset(blocks, i)..Offset(blocks, i + 1)] == blocks[i]
  {
    var pre, post := blocks[..i + 1], blocks[i + 1..];
    assert blocks == pre + post;
    ConcatAppend(pre, post);
    ConcatStep(blocks, i);
    OffsetNext(blocks, i);
    var front, block, back := Concat(blocks[..i]), blocks[i], Concat(post);
    assert Concat(blocks) == front + block + back;
    assert (front + block + back)[|front|..|front| + |block|] == block;
  }

  /** The block that flattened position j was taken from. */
  function Owner<T>(blocks: seq<seq<T>>, j: nat): (i: nat)
    requires j < |Concat(blocks)|
    ensures i < |blocks|
    ensures Offset(blocks, i) <= j < Offset(blocks, i) + |blocks[i]|
    decreases |blocks|
  {
    var n := |blocks| - 1;
    var front := blocks[..n];
    if j >= |Concat(front)| then
      assert blocks[..n + 1] == blocks;
      n
    else
      var i := Owner(front, j);
      assert front[..i] == blocks[..i];
      assert front[..i + 1] == blocks[..i + 1];
      OffsetNext(front, i);
      OffsetNext(blocks, i);
      i
  }

  /** A position lying inside block i is owned by block i and no other. */
  lemma OwnerUnique<T>(blocks: seq<seq<T>>, i: nat, j: nat)
    requires i < |blocks| && Offset(blocks, i) <= j < Offset(blocks, i) + |blocks[i]|
    ensures j < |Concat(blocks)| && Owner(blocks, j) == i
  {
    ConcatAt(blocks, i, j - Offset(blocks, i));
    var o := Owner(blocks, j);
    if o < i {
      OffsetNext(blocks, o);
      OffsetMonotone(blocks, o + 1, i);
    } else if o > i {
      OffsetNext(blocks, i);
      OffsetMonotone(blocks, i + 1, o);
    }
  }

  /** Later positions never come from earlier blocks. */
  lemma OwnerMonotone<T>(blocks: seq<seq<T>>, j: nat, j': nat)
    requires j <= j' < |Concat(blocks)|
    ensures Owner(blocks, j) <= Owner(blocks, j')
  {
    var o, o' := Owner(blocks, j), Owner(blocks, j');
    if o' < o {
      OffsetNext(blocks, o');
      OffsetMonotone(blocks, o' + 1, o);
    }
  }

  /** Two block lists whose blocks have the same lengths place their blocks at the same offsets. */
  lemma {:induction false} SameShapeOffsets<A, B>(a: seq<seq<A>>, b: seq<seq<B>>, i: nat)
    requires |a| == |b| && forall k :: 0 <= k < |a| ==> |a[k]| == |b[k]|
    requires i <= |a|
    ensures Offset(a, i) == Offset(b, i)
    decreases i
  {
    if i > 0 {
      SameShapeOffsets(a, b, i - 1);
      OffsetNext(a, i - 1);
      OffsetNext(b, i - 1);
    }
  }
}

/** A dense real tensor, stored as its shape and its rows along the last
    axis, the rows listed in row-major order of the leading axes. */
module Tensors {

  datatype Tensor = Tensor(shape: seq<nat>, rows: seq<seq<real>>)

  /** Product of the dimensions (1 for no dimensions). */
  function Product(dims: seq<nat>): nat {
    if |dims| == 0 then 1 else Product(dims[..|dims| - 1]) * dims[|dims| - 1]
  }

  function Ndim(t: Tensor): nat {
    |t.shape|
  }

  /** The length of the last axis. */
  function LastDim(t: Tensor): nat
    requires |t.shape| >= 1
  {
    t.shape[|t.shape| - 1]
  }

  /** The leading dimensions, everything but the last axis. */
  function LeadingDims(t: Tensor): seq<nat>
    requires |t.shape| >= 1
  {
    t.shape[..|t.shape| - 1]
  }

  /** A 0-dimensional tensor holds one value; otherwise there is one row per
      index of the leading axes and each row spans the last axis. */
  predicate WellFormed(t: Tensor) {
    if |t.shape| == 0 then
      |t.rows| == 1 && |t.rows[0]| == 1
    else
      && |t.rows| == Product(LeadingDims(t))
      && forall i :: 0 <= i < |t.rows| ==> |t.rows[i]| == LastDim(t)
  }

  /** Concatenation of blocks of rows. */
  function Flatten(blocks: seq<seq<seq<real>>>): seq<seq<real>> {
    if |blocks| == 0 then [] else Flatten(blocks[..|blocks| - 1]) + blocks[|blocks| - 1]
  }

  /** Flattening blocks of `n` rows each gives `n` rows per block. */
  lemma {:induction false} FlattenLength(blocks: seq<seq<seq<real>>>, n: nat)
    requires forall k :: 0 <= k < |blocks| ==> |blocks[k]| == n
    ensures |Flatten(blocks)| == |blocks| * n
  {
    if |blocks| > 0 {
      FlattenLength(blocks[..|blocks| - 1], n);
    }
  }

  /** Flattening blocks of `n` rows each puts row `j` of block `i` at
      position `i * n + j`. */
  lemma {:induction false} FlattenAt(blocks: seq<seq<seq<real>>>, n: nat, i: nat, j: nat)
    requires forall k :: 0 <= k < |blocks| ==> |blocks[k]| == n
    requires i < |blocks| && j < n
    ensures |Flatten(blocks)| == |blocks| * n
    ensures i * n + j < |Flatten(blocks)| && Flatten(blocks)[i * n + j] == blocks[i][j]
  {
    var last := |blocks| - 1;
    var init := blocks[..last];
    FlattenLength(blocks, n);
    FlattenLength(init, n);
    if i < last {
      FlattenAt(init, n, i, j);
      MulStrict(i, last, n, j);
      assert init[i] == blocks[i];
    } else {
      assert i * n + j == last * n + j;
    }
  }

  /** Flattening keeps a common row length. */
  lemma {:induction false} FlattenRowLength(blocks: seq<seq<seq<real>>>, len: nat)
    requires forall i, j :: 0 <= i < |blocks| && 0 <= j < |blocks[i]| ==> |blocks[i][j]| == len
    ensures forall k :: 0 <= k < |Flatten(blocks)| ==> |Flatten(blocks)[k]| == len
  {
    if |blocks| > 0 {
      FlattenRowLength(blocks[..|blocks| - 1], len);
    }
  }

  /** One more axis multiplies the element count. */
  lemma ProductAppend(dims: seq<nat>, n: nat)
    ensures Product(dims + [n]) == Product(dims) * n
  {
  }

  /** `i < m` and `j < n` place `i * n + j` below `m * n`. */
  lemma MulStrict(i: nat, m: nat, n: nat, j: nat)
    requires i < m && j < n
    ensures i * n + j < m * n
  {
    assert (i + 1) * n <= m * n by {
      assert i + 1 <= m;
    }
  }
}

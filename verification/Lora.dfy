/**
 LoRA tensors kept as a pair of factors (LoraTorchTensor in convert_lora_to_gguf.py): every
 operation on the pair stands for the same operation on the product B·A.
 */
module Lora {
  import opened Base
  import opened Arithmetic
  import opened Tensors

  datatype Lora = Lora(a: Tensor, b: Tensor)

  /** What the constructor asserts, and a rank of at least one. */
  ghost predicate Adapter(l: Lora) {
    var n := |l.b.shape|;
    && Valid(l.a) && Valid(l.b)
    && |l.a.shape| == n && n >= 2
    && l.a.shape[n - 2] == l.b.shape[n - 1] && l.b.shape[n - 1] >= 1
  }

  /** The constructor; None when an assertion of it fails. */
  function Make(a: Tensor, b: Tensor): Option<Lora> {
    var n := |b.shape|;
    if |a.shape| == n && n >= 2 && a.shape[n - 2] == b.shape[n - 1] then Some(Lora(a, b)) else None
  }

  function Ones(n: nat): Shape {
    seq(n, _ => 1)
  }

  function Origin(n: nat): Index {
    seq(n, _ => 0)
  }

  /** A is not batched: all its leading dimensions are 1. */
  predicate LeadsOne(l: Lora)
    requires |l.a.shape| >= 2
  {
    l.a.shape[..|l.a.shape| - 2] == Ones(|l.a.shape| - 2)
  }

  /** The matrix product broadcasts A over the leading dimensions of B. */
  predicate Broadcasts(l: Lora)
    requires |l.a.shape| == |l.b.shape| >= 2
  {
    forall k :: 0 <= k < |l.a.shape| - 2 ==> l.a.shape[k] == 1 || l.a.shape[k] == l.b.shape[k]
  }

  function ShapeOf(l: Lora): Shape
    requires l.a.shape != [] && l.b.shape != []
  {
    Front(l.b.shape) + [Last(l.a.shape)]
  }

  function LeadOf(shape: Shape, idx: Index): Index
    requires 2 <= |shape| == |idx|
  {
    seq(|shape| - 2, k requires 0 <= k < |shape| - 2 => if shape[k] == 1 then 0 else idx[k])
  }

  lemma LeadOfCons(n: nat, shape: Shape, x: nat, idx: Index)
    requires 2 <= |shape| == |idx| && x < n
    ensures LeadOf([n] + shape, [x] + idx) == [x] + LeadOf(shape, idx)
  {
  }

  function RowFactor(l: Lora, idx: Index, k: nat): real
    requires idx != []
  {
    At(l.b, Front(idx) + [k])
  }

  function ColumnFactor(l: Lora, idx: Index, k: nat): real
    requires 2 <= |l.a.shape| == |idx|
  {
    At(l.a, LeadOf(l.a.shape, idx) + [k] + [Last(idx)])
  }

  function Product(x: real, y: real): real {
    x * y
  }

  /** The sum of the first `n` products of an element of B and one of A. */
  function Dot(l: Lora, idx: Index, n: nat): real
    requires 2 <= |l.a.shape| == |idx|
  {
    if n == 0 then 0.0 else Dot(l, idx, n - 1) + Product(RowFactor(l, idx, n - 1), ColumnFactor(l, idx, n - 1))
  }

  ghost predicate SameFactors(l: Lora, idx: Index, m: Lora, jdx: Index, k: nat)
    requires 2 <= |l.a.shape| == |idx| && 2 <= |m.a.shape| == |jdx|
  {
    RowFactor(l, idx, k) == RowFactor(m, jdx, k) && ColumnFactor(l, idx, k) == ColumnFactor(m, jdx, k)
  }

  ghost predicate SwappedFactors(l: Lora, idx: Index, m: Lora, jdx: Index, k: nat)
    requires 2 <= |l.a.shape| == |idx| && 2 <= |m.a.shape| == |jdx|
  {
    RowFactor(l, idx, k) == ColumnFactor(m, jdx, k) && ColumnFactor(l, idx, k) == RowFactor(m, jdx, k)
  }

  lemma {:induction false} DotSame(l: Lora, idx: Index, m: Lora, jdx: Index, n: nat)
    requires 2 <= |l.a.shape| == |idx| && 2 <= |m.a.shape| == |jdx|
    requires forall k :: 0 <= k < n ==> SameFactors(l, idx, m, jdx, k) || SwappedFactors(l, idx, m, jdx, k)
    ensures Dot(l, idx, n) == Dot(m, jdx, n)
  {
    if n > 0 {
      DotSame(l, idx, m, jdx, n - 1);
      assert SameFactors(l, idx, m, jdx, n - 1) || SwappedFactors(l, idx, m, jdx, n - 1);
      SameProduct(RowFactor(l, idx, n - 1), ColumnFactor(l, idx, n - 1),
                  RowFactor(m, jdx, n - 1), ColumnFactor(m, jdx, n - 1));
    }
  }

  lemma SameProduct(x: real, y: real, u: real, v: real)
    requires (x == u && y == v) || (x == v && y == u)
    ensures Product(x, y) == Product(u, v)
  {
  }

  ghost predicate IsProduct(l: Lora, t: Tensor)
    requires Adapter(l)
  {
    && Valid(t) && t.shape == ShapeOf(l)
    && forall idx :: InRange(t.shape, idx) ==> At(t, idx) == Dot(l, idx, Last(l.b.shape))
  }

  lemma ProductExists(l: Lora)
    requires Adapter(l)
    ensures exists t :: IsProduct(l, t)
  {
    var t := Build(ShapeOf(l), idx => if |idx| == |l.a.shape| && |idx| >= 2 then Dot(l, idx, Last(l.b.shape)) else 0.0);
    assert IsProduct(l, t);
  }

  /** The tensor that the pair stands for: B·A. */
  ghost function Dense(l: Lora): (t: Tensor)
    requires Adapter(l)
    ensures IsProduct(l, t)
  {
    ProductExists(l);
    var t :| IsProduct(l, t);
    t
  }

  lemma ProductIsDense(l: Lora, t: Tensor)
    requires Adapter(l) && IsProduct(l, t)
    ensures t == Dense(l)
  {
    Extensional(t, Dense(l));
  }

  lemma LeadsOneLead(l: Lora, idx: Index)
    requires 2 <= |l.a.shape| == |idx| && LeadsOne(l)
    ensures LeadOf(l.a.shape, idx) == Origin(|idx| - 2)
  {
    forall k | 0 <= k < |idx| - 2
      ensures l.a.shape[k] == 1
    {
      assert l.a.shape[k] == l.a.shape[..|l.a.shape| - 2][k];
    }
  }

  lemma UnbatchedFactors(l: Lora, front: Index, j: nat, k: nat)
    requires 2 <= |l.a.shape| == |front| + 1 && LeadsOne(l)
    ensures RowFactor(l, front + [j], k) == At(l.b, front + [k])
    ensures ColumnFactor(l, front + [j], k) == At(l.a, Origin(|front| - 1) + [k] + [j])
  {
    FrontLast(front, j);
    LeadsOneLead(l, front + [j]);
  }

  // ----- permute and transpose

  function Negative(dim: int, n: nat): int {
    if dim >= 0 then dim - n else dim
  }

  function Position(dim: int, n: nat): (d: nat)
    requires -(n as int) <= dim < n
  {
    Negative(dim, n) + n
  }

  /** torch's reading of dimension numbers; None when one is out of range. */
  function Dimensions(dims: seq<int>, n: nat): Option<seq<nat>> {
    if forall k :: 0 <= k < |dims| ==> -(n as int) <= dims[k] < n then
      Some(seq(|dims|, k requires 0 <= k < |dims| => Position(dims[k], n)))
    else None
  }

  ghost function PermuteDims(t: Tensor, dims: seq<int>): (r: Option<Tensor>)
    ensures r.Some? ==> Valid(r.value)
  {
    match Dimensions(dims, |t.shape|)
    case None => None
    case Some(ds) => Permute(t, ds)
  }

  ghost function LoraPermute(l: Lora, dims: seq<int>): (r: Option<Lora>)
    requires Adapter(l)
    ensures r.Some? ==> Adapter(r.value)
  {
    var n := |l.b.shape|;
    if dims == [] then None
    else if Negative(Last(dims), n) == -1 then
      if !LeadsOne(l) then None
      else match PermuteDims(l.b, dims)
        case None => None
        case Some(b) => Make(l.a, b)
    else if n == 2 && |dims| >= 2 && Negative(Last(dims), n) == -2 && Negative(dims[|dims| - 2], n) == -1 then
      match (PermuteDims(l.b, dims), PermuteDims(l.a, dims))
      case (Some(a), Some(b)) => Make(a, b)
      case _ => None
    else None
  }

  lemma LastStays(dims: seq<nat>, n: nat)
    requires n > 0 && IsPermutation(dims, n) && dims[n - 1] == n - 1
    ensures PositionOf(dims, n - 1) == n - 1
    ensures forall d :: 0 <= d < n - 1 ==> PositionOf(dims, d) < n - 1
  {
  }

  lemma UnpermutedSnoc(dims: seq<nat>, idx: Index, j: nat)
    requires IsPermutation(dims, |idx| + 1) && dims[|idx|] == |idx|
    ensures Last(Unpermuted(dims, idx + [j])) == j
    ensures forall k: nat :: Front(Unpermuted(dims, idx + [k])) == Front(Unpermuted(dims, idx + [j]))
  {
    LastStays(dims, |idx| + 1);
    forall k: nat
      ensures Front(Unpermuted(dims, idx + [k])) == Front(Unpermuted(dims, idx + [j]))
    {
    }
  }

  lemma PermutedElement(b: Tensor, ds: seq<nat>, r: Tensor, idx: Index, k: nat)
    requires IsPermuted(b, ds, r) && b.shape != [] && Last(ds) == |b.shape| - 1
    requires InRange(Front(r.shape), idx) && k < Last(b.shape)
    ensures At(r, idx + [k]) == At(b, Front(Unpermuted(ds, idx + [k])) + [k])
  {
    InRangeSnoc(Front(r.shape), Last(r.shape), idx, k);
    assert r.shape == Front(r.shape) + [Last(r.shape)];
    UnpermutedSnoc(ds, idx, k);
    var u := Unpermuted(ds, idx + [k]);
    assert u == Front(u) + [Last(u)];
  }

  lemma PermuteRowsFactors(l: Lora, ds: seq<nat>, b: Tensor, front: Index, j: nat, k: nat)
    requires Adapter(l) && LeadsOne(l) && IsPermuted(l.b, ds, b) && Last(ds) == |l.b.shape| - 1
    requires InRange(Front(b.shape), front) && k < Last(l.b.shape)
    ensures SameFactors(l, Unpermuted(ds, front + [j]), Lora(l.a, b), front + [j], k)
  {
    hide At, ColumnFactor, RowFactor;
    PermutedElement(l.b, ds, b, front, k);
    UnpermutedSnoc(ds, front, k);
    UnpermutedSnoc(ds, front, j);
    var u := Unpermuted(ds, front + [j]);
    assert u == Front(u) + [j];
    UnbatchedFactors(l, Front(u), j, k);
    UnbatchedFactors(Lora(l.a, b), front, j, k);
  }

  lemma PermuteRowsAt(l: Lora, ds: seq<nat>, b: Tensor, front: Index, j: nat)
    requires Adapter(l) && LeadsOne(l) && IsPermuted(l.b, ds, b) && Last(ds) == |l.b.shape| - 1
    requires InRange(Front(b.shape), front)
    ensures Dot(l, Unpermuted(ds, front + [j]), Last(l.b.shape)) == Dot(Lora(l.a, b), front + [j], Last(l.b.shape))
  {
    var idx := front + [j];
    forall k | 0 <= k < Last(l.b.shape)
      ensures SameFactors(l, Unpermuted(ds, idx), Lora(l.a, b), idx, k)
    {
      PermuteRowsFactors(l, ds, b, front, j, k);
    }
    DotSame(l, Unpermuted(ds, idx), Lora(l.a, b), idx, Last(l.b.shape));
  }

  lemma PermuteRowsShape(l: Lora, ds: seq<nat>, b: Tensor, t: Tensor)
    requires Adapter(l) && LeadsOne(l)
    requires IsPermuted(l.b, ds, b) && IsPermuted(Dense(l), ds, t) && Last(ds) == |l.b.shape| - 1
    ensures Adapter(Lora(l.a, b)) && LeadsOne(Lora(l.a, b)) && t.shape == ShapeOf(Lora(l.a, b))
  {
    forall k | 0 <= k < |l.b.shape| - 1
      ensures t.shape[k] == b.shape[k]
    {
      assert ds[k] != ds[|l.b.shape| - 1];
    }
  }

  /** A permutation that keeps the last dimension permutes B alone. */
  lemma PermuteRows(l: Lora, ds: seq<nat>, b: Tensor, t: Tensor)
    requires Adapter(l) && LeadsOne(l)
    requires IsPermuted(l.b, ds, b) && IsPermuted(Dense(l), ds, t) && Last(ds) == |l.b.shape| - 1
    ensures Adapter(Lora(l.a, b)) && LeadsOne(Lora(l.a, b)) && IsProduct(Lora(l.a, b), t)
  {
    hide At, Dot, PositionOf, Unpermuted;
    PermuteRowsShape(l, ds, b, t);
    forall idx | InRange(t.shape, idx)
      ensures At(t, idx) == Dot(Lora(l.a, b), idx, Last(b.shape))
    {
      assert idx == Front(idx) + [Last(idx)];
      InRangeSnoc(Front(b.shape), Last(t.shape), Front(idx), Last(idx));
      UnpermutedInRange(Dense(l), ds, t, idx);
      PermuteRowsAt(l, ds, b, Front(idx), Last(idx));
    }
  }

  lemma SwapElement(t: Tensor, ds: seq<nat>, r: Tensor, i: nat, j: nat)
    requires IsPermuted(t, ds, r) && ds == [1, 0] && j < t.shape[0] && i < t.shape[1]
    ensures At(r, [i, j]) == At(t, [j, i])
  {
    assert ds[1] == 0 && ds[0] == 1;
    assert Unpermuted(ds, [i, j]) == [j, i];
    assert InRange(r.shape, [i, j]);
  }

  lemma SwapFactors(l: Lora, r: Lora, ds: seq<nat>, i: nat, j: nat, k: nat)
    requires |l.a.shape| == |l.b.shape| == 2 && ds == [1, 0] && IsPermuted(l.b, ds, r.a) && IsPermuted(l.a, ds, r.b)
    requires l.a.shape[0] == l.b.shape[1] && i < l.a.shape[1] && j < l.b.shape[0] && k < l.b.shape[1]
    ensures SwappedFactors(l, [j, i], r, [i, j], k)
  {
    SwapElement(l.a, ds, r.b, i, k);
    SwapElement(l.b, ds, r.a, k, j);
    assert Front([j, i]) + [k] == [j, k] && Front([i, j]) + [k] == [i, k];
    assert LeadOf(l.a.shape, [j, i]) + [k] + [i] == [k, i];
    assert LeadOf(r.a.shape, [i, j]) + [k] + [j] == [k, j];
  }

  /** Exchanging both dimensions of a matrix exchanges the factors. */
  lemma PermuteSwap(l: Lora, r: Lora, ds: seq<nat>, t: Tensor)
    requires Adapter(l) && |l.b.shape| == 2 && ds == [1, 0]
    requires IsPermuted(l.b, ds, r.a) && IsPermuted(l.a, ds, r.b) && IsPermuted(Dense(l), ds, t)
    ensures Adapter(r) && LeadsOne(r) && IsProduct(r, t)
  {
    assert ds[1] == 0 && ds[0] == 1;
    assert t.shape == ShapeOf(r);
    assert r.a.shape[..0] == Ones(0);
    forall idx | InRange(t.shape, idx)
      ensures At(t, idx) == Dot(r, idx, l.b.shape[1])
    {
      var i, j := idx[0], idx[1];
      assert idx == [i, j] && InRange(ShapeOf(l), [j, i]);
      SwapElement(Dense(l), ds, t, i, j);
      forall k | 0 <= k < l.b.shape[1]
        ensures SwappedFactors(l, [j, i], r, [i, j], k)
      {
        SwapFactors(l, r, ds, i, j, k);
      }
      DotSame(l, [j, i], r, [i, j], l.b.shape[1]);
    }
  }

  lemma PermuteRowsSimulates(l: Lora, dims: seq<int>)
    requires Adapter(l) && LoraPermute(l, dims).Some? && Negative(Last(dims), |l.b.shape|) == -1
    ensures var r := LoraPermute(l, dims).value;
            Adapter(r) && LeadsOne(r) && PermuteDims(Dense(l), dims) == Some(Dense(r))
  {
    var ds := Dimensions(dims, |l.b.shape|).value;
    var r := LoraPermute(l, dims).value;
    var t := Permute(Dense(l), ds).value;
    PermuteRows(l, ds, r.b, t);
    ProductIsDense(r, t);
  }

  lemma PermuteSwapSimulates(l: Lora, dims: seq<int>)
    requires Adapter(l) && LoraPermute(l, dims).Some? && Negative(Last(dims), |l.b.shape|) != -1
    ensures var r := LoraPermute(l, dims).value;
            Adapter(r) && LeadsOne(r) && PermuteDims(Dense(l), dims) == Some(Dense(r))
  {
    var ds := Dimensions(dims, 2).value;
    var r := LoraPermute(l, dims).value;
    var t := Permute(Dense(l), ds).value;
    assert ds == [1, 0];
    PermuteSwap(l, r, ds, t);
    ProductIsDense(r, t);
  }

  /** Permuting a pair permutes the tensor it stands for. */
  lemma PermuteSimulates(l: Lora, dims: seq<int>)
    requires Adapter(l) && LoraPermute(l, dims).Some?
    ensures var r := LoraPermute(l, dims).value;
            Adapter(r) && LeadsOne(r) && PermuteDims(Dense(l), dims) == Some(Dense(r))
  {
    if Negative(Last(dims), |l.b.shape|) == -1 {
      PermuteRowsSimulates(l, dims);
    } else {
      PermuteSwapSimulates(l, dims);
    }
  }

  /** transpose and swapaxes: the dimension list with two entries exchanged. */
  function Exchanged(n: nat, dim0: int, dim1: int): Option<seq<int>> {
    if !(-(n as int) <= dim0 < n && -(n as int) <= dim1 < n) then None
    else
      var p, q := if dim0 < 0 then dim0 + n else dim0, if dim1 < 0 then dim1 + n else dim1;
      Some(seq(n, k requires 0 <= k < n => if k == p then q else if k == q then p else k))
  }

  // ----- reshape

  /** The product of the dimensions, an entry -1 counting as 1. */
  function Known(shape: seq<int>): nat
    requires forall k :: 0 <= k < |shape| ==> shape[k] >= -1
  {
    if shape == [] then 1 else Known(Front(shape)) * (if Last(shape) == -1 then 1 else Last(shape))
  }

  /** At most one dimension is left open: torch infers no more. */
  predicate OneFree(shape: seq<int>) {
    forall i, j :: 0 <= i < j < |shape| ==> shape[i] != -1 || shape[j] != -1
  }

  /** torch's reading of a shape: a single -1 is replaced. */
  function Expanded(shape: seq<int>, count: nat): Option<Shape> {
    if OneFree(shape) then ExpandedEach(shape, count) else None
  }

  /** The shape with every -1 replaced; None where the program raises an error. */
  function ExpandedEach(shape: seq<int>, count: nat): Option<Shape> {
    if exists k :: 0 <= k < |shape| && shape[k] < -1 then None
    else if -1 !in shape then Some(seq(|shape|, k requires 0 <= k < |shape| => assert shape[k] in shape; shape[k]))
    else if Known(shape) == 0 || count % Known(shape) != 0 then None
    else Some(seq(|shape|, k requires 0 <= k < |shape| => if shape[k] == -1 then count / Known(shape) else shape[k]))
  }

  function ReshapeTo(t: Tensor, shape: seq<int>): Option<Tensor>
    requires Valid(t)
  {
    match Expanded(shape, Count(t.shape))
    case None => None
    case Some(s) => Reshape(t, s)
  }

  ghost function LoraReshape(l: Lora, shape: seq<int>): (r: Option<Lora>)
    requires Adapter(l)
    ensures r.Some? ==> Adapter(r.value)
  {
    if |shape| < 2 then None
    else match ExpandedEach(shape, Count(ShapeOf(l)))
      case None => None
      case Some(s) =>
        var rank, row := Last(l.b.shape), Last(l.a.shape);
        if |s| != |shape| || Last(s) != row then None
        else match (Reshape(l.a, Ones(|s| - 2) + [rank] + [row]), Reshape(l.b, Front(s) + [rank]))
          case (Some(a), Some(b)) => Make(a, b)
          case _ => None
  }

  lemma {:induction false} OnesFlat(n: nat)
    ensures Count(Ones(n)) == 1 && InRange(Ones(n), Origin(n)) && Flat(Ones(n), Origin(n)) == 0
  {
    if n > 0 {
      OnesFlat(n - 1);
      assert Ones(n) == Ones(n - 1) + [1] && Origin(n) == Origin(n - 1) + [0];
      FlatSnoc(Ones(n - 1), 1, Origin(n - 1), 0);
    }
  }

  /** The element of an unbatched A in row `k` and column `j`. */
  lemma UnbatchedElement(a: Tensor, n: nat, rank: nat, row: nat, k: nat, j: nat)
    requires Valid(a) && a.shape == Ones(n) + [rank] + [row] && k < rank && j < row
    ensures At(a, Origin(n) + [k] + [j]) == BlockAt(a.data, row, k, j)
  {
    UnbatchedRow(n, rank, k);
    SnocAt(a, Ones(n) + [rank], row, Origin(n) + [k], j);
  }

  lemma UnbatchedRow(n: nat, rank: nat, k: nat)
    requires k < rank
    ensures InRange(Ones(n) + [rank], Origin(n) + [k]) && Flat(Ones(n) + [rank], Origin(n) + [k]) == k
  {
    OnesFlat(n);
    FlatSnoc(Ones(n), rank, Origin(n), k);
    InRangeSnoc(Ones(n), rank, Origin(n), k);
  }

  lemma UnbatchedShape(l: Lora)
    requires Adapter(l) && LeadsOne(l)
    ensures l.a.shape == Ones(|l.a.shape| - 2) + [Last(l.b.shape)] + [Last(l.a.shape)]
  {
    var n := |l.a.shape|;
    assert l.a.shape == l.a.shape[..n - 2] + [l.a.shape[n - 2]] + [l.a.shape[n - 1]];
  }

  lemma ReshapeFactors(l: Lora, r: Lora, front: Index, j: nat, k: nat)
    requires Adapter(l) && LeadsOne(l) && Adapter(r) && LeadsOne(r)
    requires r.a.data == l.a.data && r.b.data == l.b.data
    requires Last(r.a.shape) == Last(l.a.shape) && Last(r.b.shape) == Last(l.b.shape)
    requires Count(Front(r.b.shape)) == Count(Front(l.b.shape)) && InRange(Front(r.b.shape), front)
    requires j < Last(l.a.shape) && k < Last(l.b.shape)
    ensures Flat(Front(r.b.shape), front) < Count(Front(l.b.shape))
    ensures SameFactors(l, Unflat(Front(l.b.shape), Flat(Front(r.b.shape), front)) + [j], r, front + [j], k)
  {
    var rank, row := Last(l.b.shape), Last(l.a.shape);
    assert l.b.shape == Front(l.b.shape) + [rank] && r.b.shape == Front(r.b.shape) + [rank];
    ReshapeLeading(l.b, Front(l.b.shape), Front(r.b.shape), rank, front, k);
    assert Reshape(l.b, r.b.shape) == Some(r.b);
    var from := Unflat(Front(l.b.shape), Flat(Front(r.b.shape), front));
    UnbatchedShape(l);
    UnbatchedShape(r);
    UnbatchedFactors(l, from, j, k);
    UnbatchedFactors(r, front, j, k);
    UnbatchedElement(l.a, |l.a.shape| - 2, rank, row, k, j);
    UnbatchedElement(r.a, |r.a.shape| - 2, rank, row, k, j);
  }

  lemma ReshapeAt(l: Lora, r: Lora, t: Tensor, front: Index, j: nat)
    requires Adapter(l) && LeadsOne(l) && Adapter(r) && LeadsOne(r)
    requires r.a.data == l.a.data && r.b.data == l.b.data
    requires Last(r.a.shape) == Last(l.a.shape) && Last(r.b.shape) == Last(l.b.shape)
    requires Count(Front(r.b.shape)) == Count(Front(l.b.shape)) && InRange(Front(r.b.shape), front)
    requires j < Last(l.a.shape) && Reshape(Dense(l), ShapeOf(r)) == Some(t)
    ensures At(t, front + [j]) == Dot(r, front + [j], Last(r.b.shape))
  {
    var before, after, row := Front(l.b.shape), Front(r.b.shape), Last(l.a.shape);
    ReshapeLeading(Dense(l), before, after, row, front, j);
    var from := Unflat(before, Flat(after, front));
    InRangeSnoc(before, row, from, j);
    forall k | 0 <= k < Last(l.b.shape)
      ensures SameFactors(l, from + [j], r, front + [j], k)
    {
      ReshapeFactors(l, r, front, j, k);
    }
    DotSame(l, from + [j], r, front + [j], Last(l.b.shape));
  }

  /**
   Reshaping a pair reshapes the tensor it stands for. With several open dimensions torch refuses
   to, but the program replaces each of them.
   */
  lemma ReshapeSimulates(l: Lora, shape: seq<int>)
    requires Adapter(l) && LeadsOne(l) && LoraReshape(l, shape).Some?
    ensures var r := LoraReshape(l, shape).value;
            && Adapter(r) && LeadsOne(r)
            && ReshapeTo(Dense(l), shape) == if OneFree(shape) then Some(Dense(r)) else None
  {
    hide At, Dot, Flat, Times;
    var s := ExpandedEach(shape, Count(ShapeOf(l))).value;
    var r := LoraReshape(l, shape).value;
    var rank, row := Last(l.b.shape), Last(l.a.shape);
    assert s == Front(s) + [row];
    FrontLast(Front(s), rank);
    FrontLast(Ones(|s| - 2) + [rank], row);
    assert r.a.shape[..|s| - 2] == Ones(|s| - 2) && r.a.shape[|s| - 2] == rank;
    assert l.b.shape == Front(l.b.shape) + [rank];
    TimesCancel(Count(Front(s)), Count(Front(l.b.shape)), rank);
    FrontLast(Front(l.b.shape), row);
    assert ShapeOf(r) == s && Count(s) == Count(ShapeOf(l));
    var t := Tensor(s, Dense(l).data);
    forall idx | InRange(s, idx)
      ensures At(t, idx) == Dot(r, idx, rank)
    {
      assert idx == Front(idx) + [Last(idx)];
      InRangeSnoc(Front(s), row, Front(idx), Last(idx));
      ReshapeAt(l, r, t, Front(idx), Last(idx));
    }
    ProductIsDense(r, t);
  }

  // ----- indexing by a tuple

  /** One entry of an index tuple. */
  datatype Item =
    | Integer(i: int)
    | Slice(start: Option<int>, stop: Option<int>, step: nat)
    | Positions(list: seq<int>) // a Python list

  /** At most one entry is a list: torch broadcasts several lists against each other. */
  predicate OneList(items: seq<Item>) {
    forall i, j :: 0 <= i < j < |items| ==> !items[i].Positions? || !items[j].Positions?
  }

  type Tuple = items: seq<Item> | OneList(items)

  const ALL := Slice(None, None, 1)

  function Clamp(x: int, n: nat): nat {
    if x < 0 then (if x + n < 0 then 0 else x + n) else if x > n then n else x
  }

  function Steps(lo: nat, hi: nat, step: nat): (r: seq<nat>)
    requires step >= 1
    ensures forall m :: 0 <= m < |r| ==> r[m] < hi
    decreases hi - lo
  {
    if lo >= hi then [] else [lo] + Steps(lo + step, hi, step)
  }

  /** What an entry selects along a dimension of size `n`; None is an error. */
  function Resolve(item: Item, n: nat): (r: Option<Sel>)
    ensures r.Some? ==> Fits([n], [r.value])
  {
    match item
    case Integer(i) => if -(n as int) <= i < n then Some(One(if i < 0 then i + n else i)) else None
    case Slice(start, stop, step) =>
      if step == 0 then None
      else
        var lo := if start.None? then 0 else Clamp(start.value, n);
        var hi := if stop.None? then n else Clamp(stop.value, n);
        Some(Many(Steps(lo, hi, step)))
    case Positions(list) =>
      if forall k :: 0 <= k < |list| ==> -(n as int) <= list[k] < n then
        Some(Many(seq(|list|, k requires 0 <= k < |list| => if list[k] < 0 then (list[k] + n) as nat else list[k])))
      else None
  }

  function ResolveAll(items: seq<Item>, shape: Shape): (r: Option<seq<Sel>>)
    requires |items| == |shape|
    ensures r.Some? ==> Fits(shape, r.value)
  {
    if items == [] then Some([])
    else
      match (ResolveAll(Front(items), Front(shape)), Resolve(Last(items), Last(shape)))
      case (Some(sels), Some(sel)) =>
        assert forall k :: 0 <= k < |sels| ==> Front(shape)[k] == shape[k];
        Some(sels + [sel])
      case _ => None
  }

  function Alls(n: nat): (r: seq<Item>)
    ensures |r| == n
  {
    seq(n, _ => ALL)
  }

  function Padded(items: seq<Item>, n: nat): (r: seq<Item>)
    requires |items| <= n
    ensures |r| == n
  {
    items + Alls(n - |items|)
  }

  /** Indexing a dense tensor by a tuple; trailing dimensions are taken whole. */
  ghost function IndexBy(t: Tensor, items: Tuple): (r: Option<Tensor>)
    ensures r.Some? ==> Valid(r.value)
  {
    if |items| > |t.shape| then None
    else match ResolveAll(Padded(items, |t.shape|), t.shape)
      case None => None
      case Some(sels) => Some(Indexed(t, sels))
  }

  /** The leading entries for A: an integer modulo the size of A, and everything else taken whole. */
  function LeadSels(shape: Shape, sels: seq<Sel>): seq<Sel>
    requires |sels| <= |shape|
  {
    seq(|sels|, k requires 0 <= k < |sels| =>
      if sels[k].One? && shape[k] > 0 then One(sels[k].i % shape[k]) else Full(shape[k]))
  }

  function SelsForA(l: Lora, sels: seq<Sel>): seq<Sel>
    requires 2 <= |sels| == |l.a.shape| && l.b.shape != []
  {
    LeadSels(l.a.shape, sels[..|sels| - 2]) + [Full(Last(l.b.shape))] + [Last(sels)]
  }

  function SelsForB(l: Lora, sels: seq<Sel>): seq<Sel>
    requires sels != [] && l.b.shape != []
  {
    Front(sels) + [Full(Last(l.b.shape))]
  }

  /** The indexed B keeps the rank as its last dimension. */
  lemma RankKept(l: Lora, sels: seq<Sel>, b: Tensor)
    requires sels != [] && l.b.shape != [] && IsIndexed(l.b, SelsForB(l, sels), b)
    ensures b.shape != [] && Last(b.shape) == Last(l.b.shape)
  {
    SelShapeSnoc(Front(sels), Full(Last(l.b.shape)).positions);
  }

  ghost function LoraIndex(l: Lora, items: Tuple): (r: Option<Lora>)
    requires Adapter(l)
    ensures r.Some? ==> Adapter(r.value)
  {
    if items == [] || |items| > |l.b.shape| then None
    else match ResolveAll(Padded(items, |l.b.shape|), ShapeOf(l))
      case None => None
      case Some(sels) =>
        RankKept(l, sels, Indexed(l.b, SelsForB(l, sels)));
        Make(Indexed(l.a, SelsForA(l, sels)), Indexed(l.b, SelsForB(l, sels)))
  }

  lemma {:induction false} UnbatchedLeads(shape: Shape, sels: seq<Sel>)
    requires shape == Ones(|shape|) && |sels| <= |shape|
    ensures var m := |SelShape(sels)|;
            && SelShape(LeadSels(shape, sels)) == Ones(m)
            && InRange(Ones(m), Origin(m))
            && Expand(LeadSels(shape, sels), Origin(m)) == Origin(|sels|)
    decreases |sels|
  {
    if sels != [] {
      var n := |sels| - 1;
      var m := |SelShape(Front(sels))|;
      UnbatchedLeads(shape, Front(sels));
      LeadSelsSnoc(shape, sels);
      if Last(sels).One? {
        LeadingInteger(LeadSels(shape, Front(sels)), m, n);
      } else {
        LeadingWhole(LeadSels(shape, Front(sels)), m, n);
      }
    }
  }

  lemma LeadSelsSnoc(shape: Shape, sels: seq<Sel>)
    requires shape == Ones(|shape|) && 0 < |sels| <= |shape|
    ensures LeadSels(shape, sels) == LeadSels(shape, Front(sels)) + [if Last(sels).One? then One(0) else Many([0])]
  {
    assert shape[|sels| - 1] == 1;
    assert Full(1) == Many([0]);
  }

  lemma LeadingInteger(leads: seq<Sel>, m: nat, n: nat)
    requires SelShape(leads) == Ones(m) && InRange(Ones(m), Origin(m)) && Expand(leads, Origin(m)) == Origin(n)
    ensures SelShape(leads + [One(0)]) == Ones(m)
    ensures Expand(leads + [One(0)], Origin(m)) == Origin(n + 1)
  {
    FrontLast(leads, One(0));
    assert Origin(n + 1) == Origin(n) + [0];
  }

  lemma LeadingWhole(leads: seq<Sel>, m: nat, n: nat)
    requires SelShape(leads) == Ones(m) && InRange(Ones(m), Origin(m)) && Expand(leads, Origin(m)) == Origin(n)
    ensures SelShape(leads + [Many([0])]) == Ones(m + 1) && InRange(Ones(m + 1), Origin(m + 1))
    ensures Expand(leads + [Many([0])], Origin(m + 1)) == Origin(n + 1)
  {
    assert Ones(m + 1) == Ones(m) + [1] && Origin(m + 1) == Origin(m) + [0] && Origin(n + 1) == Origin(n) + [0];
    SelShapeSnoc(leads, [0]);
    ExpandSnoc(leads, [0], Origin(m), 0);
  }

  lemma {:induction false} ExpandInRange(shape: Shape, sels: seq<Sel>, idx: Index)
    requires Fits(shape, sels) && InRange(SelShape(sels), idx)
    ensures InRange(shape, Expand(sels, idx))
  {
    if sels != [] {
      var n := |shape|;
      assert shape == Front(shape) + [Last(shape)] && sels == Front(sels) + [Last(sels)];
      assert Fits(Front(shape), Front(sels));
      match Last(sels) {
        case One(i) =>
          ExpandInRange(Front(shape), Front(sels), idx);
          InRangeSnoc(Front(shape), Last(shape), Expand(Front(sels), idx), i);
        case Many(p) =>
          assert idx == Front(idx) + [Last(idx)];
          InRangeSnoc(SelShape(Front(sels)), |p|, Front(idx), Last(idx));
          ExpandInRange(Front(shape), Front(sels), Front(idx));
          InRangeSnoc(Front(shape), Last(shape), Expand(Front(sels), Front(idx)), p[Last(idx)]);
      }
    }
  }

  /** The element of the indexed B, and the element of the indexed A. */
  lemma IndexedB(l: Lora, lead: seq<Sel>, p: seq<nat>, b: Tensor, front: Index, i: nat, k: nat)
    requires Adapter(l) && IsIndexed(l.b, lead + [Many(p)] + [Full(Last(l.b.shape))], b)
    requires InRange(SelShape(lead), front) && i < |p| && k < Last(l.b.shape)
    ensures At(b, front + [i] + [k]) == At(l.b, Expand(lead, front) + [p[i]] + [k])
  {
    var full := Full(Last(l.b.shape));
    ExpandSnoc(lead, p, front, i);
    ExpandSnoc(lead + [Many(p)], full.positions, front + [i], k);
  }

  lemma IndexedA(l: Lora, lead: seq<Sel>, q: seq<nat>, a: Tensor, k: nat, j: nat)
    requires Adapter(l) && LeadsOne(l) && |lead| == |l.a.shape| - 2
    requires IsIndexed(l.a, LeadSels(l.a.shape, lead) + [Full(Last(l.b.shape))] + [Many(q)], a)
    requires j < |q| && k < Last(l.b.shape)
    ensures At(a, Origin(|SelShape(lead)|) + [k] + [j]) == At(l.a, Origin(|lead|) + [k] + [q[j]])
  {
    var ones := l.a.shape[..|lead|];
    var leads := LeadSels(ones, lead);
    assert leads == LeadSels(l.a.shape, lead);
    UnbatchedLeads(ones, lead);
    var full := Full(Last(l.b.shape));
    var zeros := Origin(|SelShape(lead)|);
    ExpandSnoc(leads, full.positions, zeros, k);
    ExpandSnoc(leads + [full], q, zeros + [k], j);
  }

  /** The leading dimensions of an indexed A are all 1, as many as B keeps. */
  lemma IndexedShapeA(l: Lora, lead: seq<Sel>, q: seq<nat>, a: Tensor)
    requires Adapter(l) && LeadsOne(l) && |lead| == |l.a.shape| - 2
    requires IsIndexed(l.a, LeadSels(l.a.shape, lead) + [Full(Last(l.b.shape))] + [Many(q)], a)
    ensures a.shape == Ones(|SelShape(lead)|) + [Last(l.b.shape)] + [|q|]
  {
    hide At, Expand, InRange;
    var ones := l.a.shape[..|lead|];
    var leads := LeadSels(ones, lead);
    assert leads == LeadSels(l.a.shape, lead);
    UnbatchedLeads(ones, lead);
    hide LeadSels;
    var full := Full(Last(l.b.shape));
    SelShapeSnoc(leads, full.positions);
    SelShapeSnoc(leads + [full], q);
  }

  lemma IndexedShapeB(l: Lora, lead: seq<Sel>, p: seq<nat>, b: Tensor)
    requires l.b.shape != [] && IsIndexed(l.b, lead + [Many(p)] + [Full(Last(l.b.shape))], b)
    ensures b.shape == SelShape(lead) + [|p|] + [Last(l.b.shape)]
  {
    hide At, Expand, InRange;
    SelShapeSnoc(lead, p);
    SelShapeSnoc(lead + [Many(p)], Full(Last(l.b.shape)).positions);
  }

  lemma IndexShapes(l: Lora, lead: seq<Sel>, p: seq<nat>, q: seq<nat>, r: Lora)
    requires Adapter(l) && LeadsOne(l) && |lead| == |l.a.shape| - 2
    requires IsIndexed(l.a, LeadSels(l.a.shape, lead) + [Full(Last(l.b.shape))] + [Many(q)], r.a)
    requires IsIndexed(l.b, lead + [Many(p)] + [Full(Last(l.b.shape))], r.b)
    ensures Adapter(r) && LeadsOne(r) && Last(r.b.shape) == Last(l.b.shape)
    ensures ShapeOf(r) == SelShape(lead + [Many(p)] + [Many(q)]) == SelShape(lead) + [|p|] + [|q|]
  {
    hide At, Count, Expand, InRange, LeadSels;
    IndexedShapeA(l, lead, q, r.a);
    IndexedShapeB(l, lead, p, r.b);
    SelShapeSnoc(lead, p);
    SelShapeSnoc(lead + [Many(p)], q);
    var m := |SelShape(lead)|;
    assert r.a.shape[..m] == Ones(m) && r.a.shape[m] == Last(l.b.shape);
  }

  lemma IndexFactors(l: Lora, lead: seq<Sel>, p: seq<nat>, q: seq<nat>, r: Lora, front: Index, i: nat, j: nat, k: nat)
    requires Adapter(l) && LeadsOne(l) && |lead| == |l.a.shape| - 2
    requires IsIndexed(l.a, LeadSels(l.a.shape, lead) + [Full(Last(l.b.shape))] + [Many(q)], r.a)
    requires IsIndexed(l.b, lead + [Many(p)] + [Full(Last(l.b.shape))], r.b)
    requires InRange(SelShape(lead), front) && i < |p| && j < |q| && k < Last(l.b.shape)
    requires |r.a.shape| == |front| + 2 && LeadsOne(r) && |Expand(lead, front)| == |lead|
    ensures SameFactors(l, Expand(lead, front) + [p[i]] + [q[j]], r, front + [i] + [j], k)
  {
    var e := Expand(lead, front);
    IndexedB(l, lead, p, r.b, front, i, k);
    IndexedA(l, lead, q, r.a, k, j);
    UnbatchedFactors(l, e + [p[i]], q[j], k);
    UnbatchedFactors(r, front + [i], j, k);
  }

  lemma IndexAt(l: Lora, lead: seq<Sel>, p: seq<nat>, q: seq<nat>, r: Lora, t: Tensor, front: Index, i: nat, j: nat)
    requires Adapter(l) && LeadsOne(l) && Fits(ShapeOf(l), lead + [Many(p)] + [Many(q)])
    requires IsIndexed(l.a, LeadSels(l.a.shape, lead) + [Full(Last(l.b.shape))] + [Many(q)], r.a)
    requires IsIndexed(l.b, lead + [Many(p)] + [Full(Last(l.b.shape))], r.b)
    requires IsIndexed(Dense(l), lead + [Many(p)] + [Many(q)], t)
    requires InRange(SelShape(lead), front) && i < |p| && j < |q|
    requires |r.a.shape| == |front| + 2 && LeadsOne(r)
    ensures At(t, front + [i] + [j]) == Dot(r, front + [i] + [j], Last(l.b.shape))
  {
    ExpandSnoc(lead, p, front, i);
    ExpandSnoc(lead + [Many(p)], q, front + [i], j);
    var e := Expand(lead, front);
    ExpandInRange(ShapeOf(l), lead + [Many(p)] + [Many(q)], front + [i] + [j]);
    forall k | 0 <= k < Last(l.b.shape)
      ensures SameFactors(l, e + [p[i]] + [q[j]], r, front + [i] + [j], k)
    {
      IndexFactors(l, lead, p, q, r, front, i, j, k);
    }
    DotSame(l, e + [p[i]] + [q[j]], r, front + [i] + [j], Last(l.b.shape));
  }

  /** Indexing that keeps rows and columns indexes the product. */
  lemma IndexKeeping(l: Lora, lead: seq<Sel>, p: seq<nat>, q: seq<nat>, r: Lora, t: Tensor)
    requires Adapter(l) && LeadsOne(l) && Fits(ShapeOf(l), lead + [Many(p)] + [Many(q)])
    requires IsIndexed(l.a, LeadSels(l.a.shape, lead) + [Full(Last(l.b.shape))] + [Many(q)], r.a)
    requires IsIndexed(l.b, lead + [Many(p)] + [Full(Last(l.b.shape))], r.b)
    requires IsIndexed(Dense(l), lead + [Many(p)] + [Many(q)], t)
    ensures Adapter(r) && LeadsOne(r) && IsProduct(r, t)
  {
    hide At, Dense, Dot, Expand, LeadsOne, SelShape;
    IndexShapes(l, lead, p, q, r);
    forall idx | InRange(t.shape, idx)
      ensures At(t, idx) == Dot(r, idx, Last(r.b.shape))
    {
      var n := |idx|;
      var front, i, j := idx[..n - 2], idx[n - 2], idx[n - 1];
      assert idx == front + [i] + [j];
      InRangeSnoc(SelShape(lead) + [|p|], |q|, front + [i], j);
      InRangeSnoc(SelShape(lead), |p|, front, i);
      IndexAt(l, lead, p, q, r, t, front, i, j);
    }
  }

  /** Both of the last two entries are integers: the result would be a vector. */
  predicate TwoIntegers(sels: seq<Sel>) {
    |sels| >= 2 && sels[|sels| - 2].One? && sels[|sels| - 1].One?
  }

  /** The selections that an index tuple makes on the tensor the pair stands for. */
  function Selections(l: Lora, items: seq<Item>): Option<seq<Sel>>
    requires l.a.shape != [] && l.b.shape != []
  {
    if |items| > |l.b.shape| then None else ResolveAll(Padded(items, |l.b.shape|), ShapeOf(l))
  }

  lemma SelsSplit(sels: seq<Sel>)
    requires |sels| >= 2
    ensures sels == sels[..|sels| - 2] + [sels[|sels| - 2]] + [sels[|sels| - 1]]
    ensures Front(sels) == sels[..|sels| - 2] + [sels[|sels| - 2]]
  {
  }

  /** The numbers of dimensions of the indexed factors. */
  lemma IndexRanks(l: Lora, sels: seq<Sel>)
    requires Adapter(l) && LeadsOne(l) && |sels| == |l.b.shape|
    ensures var m := |SelShape(sels[..|sels| - 2])|;
            && SelShape(SelsForA(l, sels)) ==
                 Ones(m) + [Last(l.b.shape)] + (if Last(sels).One? then [] else [|Last(sels).positions|])
            && SelShape(SelsForB(l, sels)) ==
                 SelShape(sels[..|sels| - 2])
                 + (if sels[|sels| - 2].One? then [] else [|sels[|sels| - 2].positions|]) + [Last(l.b.shape)]
  {
    var lead := sels[..|sels| - 2];
    var ones := l.a.shape[..|lead|];
    UnbatchedLeads(ones, lead);
    assert LeadSels(ones, lead) == LeadSels(l.a.shape, lead);
    var full := Full(Last(l.b.shape));
    SelShapeSnoc(LeadSels(ones, lead), full.positions);
    FrontLast(LeadSels(ones, lead) + [full], Last(sels));
    SelsSplit(sels);
    FrontLast(lead, sels[|sels| - 2]);
    SelShapeSnoc(Front(sels), full.positions);
  }

  /**
   Indexing a pair by a tuple indexes the tensor it stands for, except by two integers at the end.
   Those the program refuses, unless the rank is 1 and a leading dimension is kept: then it
   returns a matrix where a vector was asked for.
   */
  lemma IndexSimulates(l: Lora, items: Tuple)
    requires Adapter(l) && LeadsOne(l) && LoraIndex(l, items).Some?
    ensures var r := LoraIndex(l, items).value;
            var sels := Selections(l, items).value;
            && (!TwoIntegers(sels) ==> Adapter(r) && LeadsOne(r) && IndexBy(Dense(l), items) == Some(Dense(r)))
            && (TwoIntegers(sels) ==>
                  && Last(l.b.shape) == 1 && |IndexBy(Dense(l), items).value.shape| >= 1
                  && ShapeOf(r) == IndexBy(Dense(l), items).value.shape + [1])
  {
    var r := LoraIndex(l, items).value;
    var sels := Selections(l, items).value;
    var n := |sels|;
    IndexRanks(l, sels);
    SelsSplit(sels);
    if TwoIntegers(sels) {
      TwoIntegersShape(l, sels, r);
    } else {
      var lead := sels[..n - 2];
      KeepsBoth(l, sels);
      IndexKeeping(l, lead, sels[n - 2].positions, sels[n - 1].positions, r, Indexed(Dense(l), sels));
      ProductIsDense(r, Indexed(Dense(l), sels));
    }
  }

  /** The constructor refuses factors of which only one lost its last dimension but one. */
  lemma KeepsBoth(l: Lora, sels: seq<Sel>)
    requires Adapter(l) && LeadsOne(l) && |sels| == |l.b.shape|
    requires |SelShape(SelsForA(l, sels))| == |SelShape(SelsForB(l, sels))| && !TwoIntegers(sels)
    ensures sels[|sels| - 2].Many? && sels[|sels| - 1].Many?
  {
    IndexRanks(l, sels);
  }

  lemma TwoIntegersShape(l: Lora, sels: seq<Sel>, r: Lora)
    requires Adapter(l) && LeadsOne(l) && |sels| == |l.b.shape| && TwoIntegers(sels)
    requires Make(Indexed(l.a, SelsForA(l, sels)), Indexed(l.b, SelsForB(l, sels))) == Some(r)
    ensures Last(l.b.shape) == 1 && |SelShape(sels)| >= 1 && ShapeOf(r) == SelShape(sels) + [1]
  {
    IndexRanks(l, sels);
    SelsSplit(sels);
    var lead := sels[..|sels| - 2];
    FrontLast(lead, sels[|sels| - 2]);
    FrontLast(Front(sels), Last(sels));
    assert SelShape(sels) == SelShape(lead);
    var m := |SelShape(lead)|;
    assert r.a.shape == Ones(m) + [Last(l.b.shape)] && r.b.shape == SelShape(lead) + [Last(l.b.shape)];
    assert m >= 1 && r.a.shape[m - 1] == 1;
  }
}

/** Dense tensors in exact arithmetic: row-major data with reshape, permute, indexing and matrix product. */
module Tensors {
  import opened Base
  import opened Arithmetic

  type Shape = seq<nat>
  type Index = seq<nat>

  function Last<T>(s: seq<T>): T
    requires s != []
  {
    s[|s| - 1]
  }

  function Front<T>(s: seq<T>): seq<T>
    requires s != []
  {
    s[..|s| - 1]
  }

  lemma FrontLast<T>(s: seq<T>, x: T)
    ensures Front(s + [x]) == s && Last(s + [x]) == x
  {
  }

  function Count(shape: Shape): nat {
    if shape == [] then 1 else Times(Count(Front(shape)), Last(shape))
  }

  predicate InRange(shape: Shape, idx: Index) {
    |idx| == |shape| && forall k :: 0 <= k < |shape| ==> idx[k] < shape[k]
  }

  /** The row-major position of an index. */
  function Flat(shape: Shape, idx: Index): nat
    requires |idx| == |shape|
  {
    if shape == [] then 0 else Times(Flat(Front(shape), Front(idx)), Last(shape)) + Last(idx)
  }

  lemma {:induction false} FlatBound(shape: Shape, idx: Index)
    requires InRange(shape, idx)
    ensures Flat(shape, idx) < Count(shape)
  {
    if shape != [] {
      FlatBound(Front(shape), Front(idx));
      TimesBound(Flat(Front(shape), Front(idx)), Count(Front(shape)), Last(shape), Last(idx));
    }
  }

  lemma FlatLast(shape: Shape, front: Index, j: nat)
    requires shape != [] && InRange(Front(shape), front) && j < Last(shape)
    ensures InRange(shape, front + [j])
    ensures Flat(shape, front + [j]) == Times(Flat(Front(shape), front), Last(shape)) + j
  {
    FrontLast(front, j);
  }

  lemma {:induction false} UnflatExists(shape: Shape, m: nat)
    requires m < Count(shape)
    ensures exists idx: Index :: InRange(shape, idx) && Flat(shape, idx) == m
  {
    if shape == [] {
      var none: Index := [];
      assert InRange(shape, none) && Flat(shape, none) == 0;
    } else {
      var q, r := Divide(m, Count(Front(shape)), Last(shape));
      UnflatExists(Front(shape), q);
      var front: Index :| InRange(Front(shape), front) && Flat(Front(shape), front) == q;
      FlatLast(shape, front, r);
    }
  }

  /** The index at a row-major position. */
  ghost function Unflat(shape: Shape, m: nat): (idx: Index)
    requires m < Count(shape)
    ensures InRange(shape, idx) && Flat(shape, idx) == m
  {
    UnflatExists(shape, m);
    var idx: Index :| InRange(shape, idx) && Flat(shape, idx) == m;
    idx
  }

  lemma {:induction false} FlatOnce(shape: Shape, idx: Index, jdx: Index)
    requires InRange(shape, idx) && InRange(shape, jdx) && Flat(shape, idx) == Flat(shape, jdx)
    ensures idx == jdx
  {
    if shape != [] {
      SameQuotient(Flat(Front(shape), Front(idx)), Flat(Front(shape), Front(jdx)), Last(shape), Last(idx), Last(jdx));
      FlatOnce(Front(shape), Front(idx), Front(jdx));
      assert idx == Front(idx) + [Last(idx)] && jdx == Front(jdx) + [Last(jdx)];
    }
  }

  lemma UnflatFlat(shape: Shape, idx: Index)
    requires InRange(shape, idx)
    ensures Flat(shape, idx) < Count(shape) && Unflat(shape, Flat(shape, idx)) == idx
  {
    FlatBound(shape, idx);
    FlatOnce(shape, idx, Unflat(shape, Flat(shape, idx)));
  }

  datatype Tensor = Tensor(shape: Shape, data: seq<real>)

  predicate Valid(t: Tensor) {
    |t.data| == Count(t.shape)
  }

  /** The element at an index; outside the tensor there is none, and 0.0 stands for it. */
  function At(t: Tensor, idx: Index): real {
    if Valid(t) && InRange(t.shape, idx) then
      FlatBound(t.shape, idx);
      t.data[Flat(t.shape, idx)]
    else 0.0
  }

  ghost function Build(shape: Shape, f: Index -> real): (t: Tensor)
    ensures Valid(t) && t.shape == shape
    ensures forall idx :: InRange(shape, idx) ==> At(t, idx) == f(idx)
  {
    var t := Tensor(shape, seq(Count(shape), m requires 0 <= m < Count(shape) => f(Unflat(shape, m))));
    assert forall idx :: InRange(shape, idx) ==> At(t, idx) == f(idx) by {
      forall idx | InRange(shape, idx)
        ensures At(t, idx) == f(idx)
      {
        UnflatFlat(shape, idx);
      }
    }
    t
  }

  /** Tensors of one shape that agree at every index are equal. */
  lemma Extensional(t: Tensor, u: Tensor)
    requires Valid(t) && Valid(u) && t.shape == u.shape
    requires forall idx :: InRange(t.shape, idx) ==> At(t, idx) == At(u, idx)
    ensures t == u
  {
    forall m | 0 <= m < Count(t.shape)
      ensures t.data[m] == u.data[m]
    {
      var idx := Unflat(t.shape, m);
      assert At(t, idx) == At(u, idx);
    }
  }

  // ----- reshape

  function Reshape(t: Tensor, shape: Shape): Option<Tensor>
    requires Valid(t)
  {
    if Count(shape) == Count(t.shape) then Some(Tensor(shape, t.data)) else None
  }

  lemma FlatSnoc(front: Shape, n: nat, idx: Index, j: nat)
    requires |idx| == |front|
    ensures Flat(front + [n], idx + [j]) == Times(Flat(front, idx), n) + j
    ensures Count(front + [n]) == Times(Count(front), n)
  {
    FrontLast(front, n);
    FrontLast(idx, j);
  }

  /** Element `k` of block `x`, for data made of blocks of one size. */
  function BlockAt(data: seq<real>, size: nat, x: nat, k: nat): real {
    if Times(x, size) + k < |data| then data[Times(x, size) + k] else 0.0
  }

  lemma SnocAt(t: Tensor, front: Shape, n: nat, idx: Index, j: nat)
    requires Valid(t) && t.shape == front + [n] && InRange(front, idx) && j < n
    ensures At(t, idx + [j]) == BlockAt(t.data, n, Flat(front, idx), j)
  {
    FlatSnoc(front, n, idx, j);
    InRangeSnoc(front, n, idx, j);
    FlatBound(front + [n], idx + [j]);
  }

  /** Reshaping the leading dimensions only moves the leading part of an index. */
  lemma ReshapeLeading(t: Tensor, before: Shape, front: Shape, n: nat, idx: Index, j: nat)
    requires Valid(t) && t.shape == before + [n]
    requires Count(front) == Count(before) && InRange(front, idx) && j < n
    ensures Reshape(t, front + [n]).Some?
    ensures Flat(front, idx) < Count(before)
    ensures At(Reshape(t, front + [n]).value, idx + [j]) == At(t, Unflat(before, Flat(front, idx)) + [j])
  {
    FlatBound(front, idx);
    FlatSnoc(front, n, idx, j);
    FlatSnoc(before, n, Unflat(before, Flat(front, idx)), j);
    SnocAt(Reshape(t, front + [n]).value, front, n, idx, j);
    SnocAt(t, before, n, Unflat(before, Flat(front, idx)), j);
  }

  lemma InRangeSnoc(front: Shape, n: nat, idx: Index, j: nat)
    ensures InRange(front + [n], idx + [j]) <==> InRange(front, idx) && j < n
  {
    if InRange(front + [n], idx + [j]) {
      forall k | 0 <= k < |front|
        ensures idx[k] < front[k]
      {
        assert (idx + [j])[k] < (front + [n])[k];
      }
      assert (idx + [j])[|idx|] < (front + [n])[|front|];
    }
  }

  /** Peeling off the first dimension instead of the last. */
  lemma {:induction false} FlatCons(n: nat, shape: Shape, x: nat, idx: Index)
    requires |idx| == |shape|
    ensures Count([n] + shape) == Times(n, Count(shape))
    ensures Flat([n] + shape, [x] + idx) == Times(x, Count(shape)) + Flat(shape, idx)
    decreases |shape|
  {
    if shape == [] {
      assert [n] + shape == [] + [n] && [x] + idx == [] + [x];
      FlatSnoc([], n, [], x);
      TimesIs(n, 1);
      TimesIs(x, 1);
      TimesIs(1, n);
    } else {
      FlatCons(n, Front(shape), x, Front(idx));
      FlatConsStep(n, Front(shape), Last(shape), x, Front(idx), Last(idx));
      assert shape == Front(shape) + [Last(shape)] && idx == Front(idx) + [Last(idx)];
    }
  }

  lemma FlatConsStep(n: nat, front: Shape, last: nat, x: nat, m: Index, k: nat)
    requires |m| == |front|
    requires Count([n] + front) == Times(n, Count(front))
    requires Flat([n] + front, [x] + m) == Times(x, Count(front)) + Flat(front, m)
    ensures Count([n] + (front + [last])) == Times(n, Count(front + [last]))
    ensures Flat([n] + (front + [last]), [x] + (m + [k])) == Times(x, Count(front + [last])) + Flat(front + [last], m + [k])
  {
    assert [n] + (front + [last]) == [n] + front + [last] && [x] + (m + [k]) == [x] + m + [k];
    FlatSnoc([n] + front, last, [x] + m, k);
    FlatSnoc(front, last, m, k);
    Combine(Flat([n] + front, [x] + m), x, Count(front), Flat(front, m), last, k);
    Combine(Count([n] + front), n, Count(front), 0, last, 0);
  }

  lemma InRangeCons(n: nat, shape: Shape, x: nat, idx: Index)
    ensures InRange([n] + shape, [x] + idx) <==> x < n && InRange(shape, idx)
  {
    if InRange([n] + shape, [x] + idx) {
      assert ([x] + idx)[0] < ([n] + shape)[0];
      forall k | 0 <= k < |shape|
        ensures idx[k] < shape[k]
      {
        assert ([x] + idx)[k + 1] < ([n] + shape)[k + 1];
      }
    }
  }

  // ----- concatenation along the first dimension

  function CatTwo(t: Tensor, u: Tensor): Option<Tensor> {
    if t.shape != [] && u.shape != [] && t.shape[1..] == u.shape[1..] then
      Some(Tensor([t.shape[0] + u.shape[0]] + t.shape[1..], t.data + u.data))
    else None
  }

  /** torch.cat along dimension 0. */
  function CatRows(ts: seq<Tensor>): Option<Tensor> {
    if ts == [] then None
    else if |ts| == 1 then Some(ts[0])
    else match CatRows(Front(ts))
      case None => None
      case Some(t) => CatTwo(t, Last(ts))
  }

  lemma CatTwoValid(t: Tensor, u: Tensor)
    requires Valid(t) && Valid(u) && CatTwo(t, u).Some?
    ensures Valid(CatTwo(t, u).value)
  {
    hide Count, Flat, Times;
    var m, n, tail := t.shape[0], u.shape[0], t.shape[1..];
    assert t.shape == [m] + tail && u.shape == [n] + tail;
    FlatCons(m, tail, 0, seq(|tail|, _ => 0));
    FlatCons(n, tail, 0, seq(|tail|, _ => 0));
    FlatCons(m + n, tail, 0, seq(|tail|, _ => 0));
    TimesAdd(m, n, Count(tail));
  }

  lemma ConsAt(t: Tensor, n: nat, tail: Shape, x: nat, idx: Index)
    requires Valid(t) && t.shape == [n] + tail
    ensures |t.data| == Times(n, Count(tail))
    ensures At(t, [x] + idx) ==
            if InRange(tail, idx) && x < n then BlockAt(t.data, Count(tail), x, Flat(tail, idx)) else 0.0
  {
    hide Count, Flat, Times;
    FlatCons(n, tail, 0, seq(|tail|, _ => 0));
    InRangeCons(n, tail, x, idx);
    if InRange(tail, idx) && x < n {
      FlatCons(n, tail, x, idx);
      FlatBound([n] + tail, [x] + idx);
    }
  }

  lemma AppendBlocks(d: seq<real>, e: seq<real>, m: nat, size: nat, x: nat, k: nat)
    requires |d| == Times(m, size) && k < size
    ensures x < m ==> BlockAt(d + e, size, x, k) == BlockAt(d, size, x, k)
    ensures BlockAt(d + e, size, m + x, k) == BlockAt(e, size, x, k)
  {
    TimesAdd(m, x, size);
    if x < m {
      TimesBound(x, m, size, k);
    }
  }

  lemma CatLow(t: Tensor, u: Tensor, r: Tensor, m: nat, n: nat, tail: Shape, x: nat, idx: Index)
    requires Valid(t) && Valid(u) && Valid(r) && r.data == t.data + u.data && x < m
    requires t.shape == [m] + tail && u.shape == [n] + tail && r.shape == [m + n] + tail
    ensures At(r, [x] + idx) == At(t, [x] + idx)
  {
    ConsAt(t, m, tail, x, idx);
    ConsAt(r, m + n, tail, x, idx);
    if InRange(tail, idx) {
      FlatBound(tail, idx);
      DataOf(t, m, tail);
      AppendBlocks(t.data, u.data, m, Count(tail), x, Flat(tail, idx));
    }
  }

  lemma CatHigh(t: Tensor, u: Tensor, r: Tensor, m: nat, n: nat, tail: Shape, x: nat, to: nat, idx: Index)
    requires Valid(t) && Valid(u) && Valid(r) && r.data == t.data + u.data && to == m + x
    requires t.shape == [m] + tail && u.shape == [n] + tail && r.shape == [m + n] + tail
    ensures At(r, [to] + idx) == At(u, [x] + idx)
  {
    ConsAt(u, n, tail, x, idx);
    ConsAt(r, m + n, tail, to, idx);
    if InRange(tail, idx) && x < n {
      FlatBound(tail, idx);
      DataOf(t, m, tail);
      AppendBlocks(t.data, u.data, m, Count(tail), x, Flat(tail, idx));
    }
  }

  lemma DataOf(t: Tensor, n: nat, tail: Shape)
    requires Valid(t) && t.shape == [n] + tail
    ensures |t.data| == Times(n, Count(tail))
  {
    FlatCons(n, tail, 0, seq(|tail|, _ => 0));
  }

  /** The first blocks of the concatenation are the blocks of the first tensor. */
  lemma CatTwoFirst(t: Tensor, u: Tensor, x: nat, idx: Index)
    requires Valid(t) && Valid(u) && CatTwo(t, u).Some? && x < t.shape[0]
    ensures At(CatTwo(t, u).value, [x] + idx) == At(t, [x] + idx)
  {
    var m, n, tail := t.shape[0], u.shape[0], t.shape[1..];
    assert t.shape == [m] + tail && u.shape == [n] + tail;
    CatTwoValid(t, u);
    CatLow(t, u, CatTwo(t, u).value, m, n, tail, x, idx);
  }

  /** Then come the blocks of the second. */
  lemma CatTwoSecond(t: Tensor, u: Tensor, x: nat, to: nat, idx: Index)
    requires Valid(t) && Valid(u) && CatTwo(t, u).Some? && to == t.shape[0] + x
    ensures At(CatTwo(t, u).value, [to] + idx) == At(u, [x] + idx)
  {
    var m, n, tail := t.shape[0], u.shape[0], t.shape[1..];
    assert t.shape == [m] + tail && u.shape == [n] + tail;
    CatTwoValid(t, u);
    CatHigh(t, u, CatTwo(t, u).value, m, n, tail, x, to, idx);
  }

  lemma {:induction false} CatRowsValid(ts: seq<Tensor>)
    requires forall i :: 0 <= i < |ts| ==> Valid(ts[i])
    ensures CatRows(ts).Some? ==> Valid(CatRows(ts).value)
  {
    if |ts| > 1 && CatRows(ts).Some? {
      CatRowsValid(Front(ts));
      CatTwoValid(CatRows(Front(ts)).value, Last(ts));
    }
  }

  // ----- permute

  predicate IsPermutation(dims: seq<nat>, n: nat) {
    && |dims| == n
    && (forall k :: 0 <= k < n ==> dims[k] < n)
    && (forall d :: 0 <= d < n ==> d in dims)
    && (forall k, m :: 0 <= k < m < n ==> dims[k] != dims[m])
  }

  ghost function PositionOf(dims: seq<nat>, d: nat): (k: nat)
    requires d in dims
    ensures k < |dims| && dims[k] == d
  {
    var k: nat :| k < |dims| && dims[k] == d;
    k
  }

  /** The index before permuting: its part for dimension `dims[k]` is part `k` after. */
  ghost function Unpermuted(dims: seq<nat>, idx: Index): Index
    requires IsPermutation(dims, |idx|)
  {
    seq(|idx|, d requires 0 <= d < |idx| => idx[PositionOf(dims, d)])
  }

  ghost predicate IsPermuted(t: Tensor, dims: seq<nat>, r: Tensor) {
    && Valid(r) && IsPermutation(dims, |t.shape|) && |r.shape| == |t.shape|
    && (forall k :: 0 <= k < |r.shape| ==> r.shape[k] == t.shape[dims[k]])
    && (forall idx :: InRange(r.shape, idx) ==> At(r, idx) == At(t, Unpermuted(dims, idx)))
  }

  lemma PermutedExists(t: Tensor, dims: seq<nat>)
    requires IsPermutation(dims, |t.shape|)
    ensures exists r :: IsPermuted(t, dims, r)
  {
    var n := |t.shape|;
    var shape: Shape := seq(n, k requires 0 <= k < n => t.shape[dims[k]]);
    var r := Build(shape, idx => if |idx| == n then At(t, Unpermuted(dims, idx)) else 0.0);
    assert IsPermuted(t, dims, r);
  }

  /** The tensor with its dimensions permuted. */
  ghost function Permute(t: Tensor, dims: seq<nat>): (r: Option<Tensor>)
    ensures r.Some? <==> IsPermutation(dims, |t.shape|)
    ensures r.Some? ==> IsPermuted(t, dims, r.value)
  {
    if !IsPermutation(dims, |t.shape|) then None
    else
      PermutedExists(t, dims);
      var r :| IsPermuted(t, dims, r);
      Some(r)
  }

  lemma UnpermutedInRange(t: Tensor, dims: seq<nat>, r: Tensor, idx: Index)
    requires IsPermuted(t, dims, r) && InRange(r.shape, idx)
    ensures InRange(t.shape, Unpermuted(dims, idx))
  {
    forall d | 0 <= d < |t.shape|
      ensures Unpermuted(dims, idx)[d] < t.shape[d]
    {
      var k := PositionOf(dims, d);
      assert idx[k] < r.shape[k] == t.shape[dims[k]];
    }
  }

  // ----- indexing

  /** What an index selects along one dimension: a position, which drops the dimension, or several. */
  datatype Sel = One(i: nat) | Many(positions: seq<nat>)

  function SelShape(sels: seq<Sel>): Shape {
    if sels == [] then []
    else SelShape(Front(sels)) + (match Last(sels) case One(_) => [] case Many(p) => [|p|])
  }

  predicate Fits(shape: Shape, sels: seq<Sel>) {
    && |sels| == |shape|
    && forall k :: 0 <= k < |shape| ==>
         match sels[k]
         case One(i) => i < shape[k]
         case Many(p) => forall m :: 0 <= m < |p| ==> p[m] < shape[k]
  }

  /** The index of the indexed tensor that an index of the result stands for. */
  function Expand(sels: seq<Sel>, idx: Index): Index
    requires InRange(SelShape(sels), idx)
  {
    if sels == [] then []
    else
      match Last(sels)
      case One(i) =>
        assert SelShape(sels) == SelShape(Front(sels));
        Expand(Front(sels), idx) + [i]
      case Many(p) =>
        InRangeSnoc(SelShape(Front(sels)), |p|, Front(idx), Last(idx));
        assert idx == Front(idx) + [Last(idx)];
        Expand(Front(sels), Front(idx)) + [p[Last(idx)]]
  }

  ghost predicate IsIndexed(t: Tensor, sels: seq<Sel>, r: Tensor) {
    && Valid(r) && r.shape == SelShape(sels)
    && forall idx :: InRange(r.shape, idx) ==> At(r, idx) == At(t, Expand(sels, idx))
  }

  lemma IndexedExists(t: Tensor, sels: seq<Sel>)
    ensures exists r :: IsIndexed(t, sels, r)
  {
    var r := Build(SelShape(sels), idx => if InRange(SelShape(sels), idx) then At(t, Expand(sels, idx)) else 0.0);
    assert IsIndexed(t, sels, r);
  }

  /** The indexed tensor. */
  ghost function Indexed(t: Tensor, sels: seq<Sel>): (r: Tensor)
    ensures IsIndexed(t, sels, r)
  {
    IndexedExists(t, sels);
    var r :| IsIndexed(t, sels, r);
    r
  }

  function Full(n: nat): Sel {
    Many(seq(n, i requires 0 <= i < n => i))
  }

  lemma SelShapeSnoc(sels: seq<Sel>, p: seq<nat>)
    ensures SelShape(sels + [Many(p)]) == SelShape(sels) + [|p|]
  {
    FrontLast(sels, Many(p));
  }

  lemma ExpandSnoc(sels: seq<Sel>, p: seq<nat>, idx: Index, j: nat)
    requires InRange(SelShape(sels), idx) && j < |p|
    ensures InRange(SelShape(sels + [Many(p)]), idx + [j])
    ensures Expand(sels + [Many(p)], idx + [j]) == Expand(sels, idx) + [p[j]]
  {
    FrontLast(sels, Many(p));
    FrontLast(idx, j);
    InRangeSnoc(SelShape(sels), |p|, idx, j);
  }
}

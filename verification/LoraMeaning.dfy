/**
 What the pair of factors and the tensor operations of convert_lora_to_gguf.py mean, element by element,
 and exactly when the program carries an operation out.
 */
module LoraMeaning {
  import opened Base
  import opened Arithmetic
  import opened Tensors
  import opened Lora
  import opened LoraItems
  import opened LoraBatches
  import opened LoraExpressions
  import opened LoraSlices

  // ----- the product

  function Sum(xs: seq<real>): real {
    if xs == [] then 0.0 else xs[0] + Sum(xs[1..])
  }

  lemma {:induction false} SumSnoc(xs: seq<real>, x: real)
    ensures Sum(xs + [x]) == Sum(xs) + x
  {
    if xs == [] {
      assert xs + [x] == [x];
    } else {
      assert (xs + [x])[1..] == xs[1..] + [x];
      SumSnoc(xs[1..], x);
    }
  }

  /** The products of a row of B and a column of A. */
  ghost predicate AreProducts(xs: seq<real>, a: Tensor, b: Tensor, row: Index, lead: Index, j: nat) {
    forall k :: 0 <= k < |xs| ==> xs[k] == At(b, row + [k]) * At(a, lead + [k] + [j])
  }

  lemma {:induction false} DotIsSum(l: Lora, row: Index, lead: Index, j: nat, xs: seq<real>)
    requires 2 <= |l.a.shape| == |row| + 1 && lead == LeadOf(l.a.shape, row + [j])
    requires AreProducts(xs, l.a, l.b, row, lead, j)
    ensures Dot(l, row + [j], |xs|) == Sum(xs)
  {
    hide At;
    if xs != [] {
      var n := |xs| - 1;
      DotIsSum(l, row, lead, j, xs[..n]);
      FrontLast(row, j);
      SumSnoc(xs[..n], xs[n]);
      assert xs == xs[..n] + [xs[n]];
    }
  }

  /** The tensor of a pair is the product of B and A; A is the same for all leading indices along which it has one block. */
  lemma PairIsProduct(l: Lora, row: Index, lead: Index, j: nat, xs: seq<real>)
    requires Adapter(l) && InRange(ShapeOf(l), row + [j])
    requires |lead| == |l.a.shape| - 2 && forall d :: 0 <= d < |lead| ==> lead[d] == if l.a.shape[d] == 1 then 0 else row[d]
    requires |xs| == Last(l.b.shape) && AreProducts(xs, l.a, l.b, row, lead, j)
    ensures At(Dense(l), row + [j]) == Sum(xs)
  {
    hide At, AreProducts, Dot;
    assert lead == LeadOf(l.a.shape, row + [j]);
    DotIsSum(l, row, lead, j, xs);
  }

  /** For matrices: a row of B times a column of A. */
  lemma MatrixProduct(l: Lora, i: nat, j: nat, xs: seq<real>)
    requires Adapter(l) && |l.b.shape| == 2 && i < l.b.shape[0] && j < l.a.shape[1]
    requires |xs| == l.b.shape[1] && forall k :: 0 <= k < |xs| ==> xs[k] == At(l.b, [i, k]) * At(l.a, [k, j])
    ensures At(Dense(l), [i, j]) == Sum(xs)
  {
    hide At, Dense, Dot;
    assert [i] + [j] == [i, j];
    forall k | 0 <= k < |xs|
      ensures xs[k] == At(l.b, [i] + [k]) * At(l.a, [] + [k] + [j])
    {
      assert [i] + [k] == [i, k] && [] + [k] + [j] == [k, j];
    }
    PairIsProduct(l, [i], [], j, xs);
  }

  /** With the identity matrix for A, the pair stands for B. */
  lemma IdentityKeeps(l: Lora)
    requires Adapter(l) && |l.b.shape| == 2 && l.a.shape == [l.b.shape[1], l.b.shape[1]]
    requires forall k: nat, j: nat {:trigger At(l.a, [k, j])} ::
               k < l.b.shape[1] && j < l.b.shape[1] ==> At(l.a, [k, j]) == if k == j then 1.0 else 0.0
    ensures Dense(l) == l.b
  {
    hide At, Dot, Flat;
    forall idx | InRange(l.b.shape, idx)
      ensures At(Dense(l), idx) == At(l.b, idx)
    {
      var i, j := idx[0], idx[1];
      assert idx == [i, j];
      var xs := seq(l.b.shape[1], k requires 0 <= k < l.b.shape[1] => if k == j then At(l.b, idx) else 0.0);
      UnitTerms(l, i, j, xs);
      MatrixProduct(l, i, j, xs);
      SumOfOne(xs, j);
    }
    assert ShapeOf(l) == l.b.shape;
    Extensional(Dense(l), l.b);
  }

  lemma UnitTerms(l: Lora, i: nat, j: nat, xs: seq<real>)
    requires Adapter(l) && |l.b.shape| == 2 && l.a.shape == [l.b.shape[1], l.b.shape[1]] && j < l.b.shape[1] == |xs|
    requires forall k: nat, j: nat {:trigger At(l.a, [k, j])} ::
               k < l.b.shape[1] && j < l.b.shape[1] ==> At(l.a, [k, j]) == if k == j then 1.0 else 0.0
    requires forall k :: 0 <= k < |xs| ==> xs[k] == if k == j then At(l.b, [i, j]) else 0.0
    ensures forall k :: 0 <= k < |xs| ==> xs[k] == At(l.b, [i, k]) * At(l.a, [k, j])
  {
    hide At;
    forall k | 0 <= k < |xs|
      ensures xs[k] == At(l.b, [i, k]) * At(l.a, [k, j])
    {
      assert At(l.a, [k, j]) == if k == j then 1.0 else 0.0;
      TimesUnit(At(l.b, [i, k]));
    }
  }

  lemma TimesUnit(x: real)
    ensures x * 1.0 == x && x * 0.0 == 0.0
  {
  }

  lemma {:induction false} SumOfOne(xs: seq<real>, j: nat)
    requires j < |xs| && forall k :: 0 <= k < |xs| && k != j ==> xs[k] == 0.0
    ensures Sum(xs) == xs[j]
  {
    if j == 0 {
      SumOfNone(xs[1..]);
    } else {
      SumOfOne(xs[1..], j - 1);
    }
  }

  lemma {:induction false} SumOfNone(xs: seq<real>)
    requires forall k :: 0 <= k < |xs| ==> xs[k] == 0.0
    ensures Sum(xs) == 0.0
  {
    if xs != [] {
      SumOfNone(xs[1..]);
    }
  }

  // ----- permuted dimensions

  /** The dimension that a number names; negative numbers count from the end. */
  predicate Names(dim: int, n: nat, d: nat) {
    d < n && (dim == d || dim + n == d)
  }

  /** Every dimension is named once. */
  ghost predicate NamesAll(dims: seq<int>, n: nat, ds: seq<nat>) {
    && |dims| == |ds| == n
    && (forall k :: 0 <= k < n ==> Names(dims[k], n, ds[k]))
    && (forall d :: 0 <= d < n ==> d in ds)
    && (forall k, m :: 0 <= k < m < n ==> ds[k] != ds[m])
  }

  lemma NamedDimensions(dims: seq<int>, n: nat, ds: seq<nat>)
    requires NamesAll(dims, n, ds)
    ensures Dimensions(dims, n) == Some(ds) && IsPermutation(ds, n)
  {
    forall k | 0 <= k < n
      ensures -(n as int) <= dims[k] < n && Position(dims[k], n) == ds[k]
    {
      assert Names(dims[k], n, ds[k]);
    }
    assert Dimensions(dims, n).value == ds;
  }

  /** torch.permute: dimension `k` of the result is the dimension of the tensor named by entry `k`. */
  lemma PermutedAt(t: Tensor, dims: seq<int>, ds: seq<nat>)
    requires NamesAll(dims, |t.shape|, ds)
    ensures PermuteDims(t, dims).Some?
    ensures var r := PermuteDims(t, dims).value;
            && Valid(r) && |r.shape| == |t.shape| && (forall k :: 0 <= k < |r.shape| ==> r.shape[k] == t.shape[ds[k]])
            && forall idx, jdx: Index {:trigger InRange(r.shape, idx), At(t, jdx)} ::
                 InRange(r.shape, idx) && |jdx| == |idx| && (forall k :: 0 <= k < |idx| ==> jdx[ds[k]] == idx[k]) ==>
                   At(r, idx) == At(t, jdx)
  {
    hide At;
    NamedDimensions(dims, |t.shape|, ds);
    var r := PermuteDims(t, dims).value;
    forall idx, jdx: Index | InRange(r.shape, idx) && |jdx| == |idx| && (forall k :: 0 <= k < |idx| ==> jdx[ds[k]] == idx[k])
      ensures At(r, idx) == At(t, jdx)
    {
      forall d | 0 <= d < |idx|
        ensures Unpermuted(ds, idx)[d] == jdx[d]
      {
        assert jdx[ds[PositionOf(ds, d)]] == idx[PositionOf(ds, d)];
      }
      assert jdx == Unpermuted(ds, idx);
    }
  }

  /** Anything else is an error. */
  lemma PermuteOnlyNames(t: Tensor, dims: seq<int>) returns (ds: seq<nat>)
    requires PermuteDims(t, dims).Some?
    ensures NamesAll(dims, |t.shape|, ds)
  {
    ds := Dimensions(dims, |t.shape|).value;
  }

  /** The pair is permuted exactly if the last dimension stays, or if the two of a matrix are exchanged. */
  lemma PairPermutes(l: Lora, dims: seq<int>, ds: seq<nat>)
    requires Adapter(l) && LeadsOne(l) && NamesAll(dims, |l.b.shape|, ds)
    ensures LoraPermute(l, dims).Some? <==> Last(ds) == |l.b.shape| - 1 || |l.b.shape| == 2
  {
    hide At;
    var n := |l.b.shape|;
    NamedDimensions(dims, n, ds);
    PermutedAt(l.b, dims, ds);
    PermutedAt(l.a, dims, ds);
    assert Names(dims[n - 1], n, ds[n - 1]) && Names(dims[n - 2], n, ds[n - 2]);
    if n == 2 && Last(ds) == 0 {
      assert 1 in ds;
    }
  }

  function Swap(p: nat, q: nat, k: nat): nat {
    if k == p then q else if k == q then p else k
  }

  lemma SwapsAll(n: nat, p: nat, q: nat, ds: seq<nat>)
    requires p < n && q < n && |ds| == n && forall k :: 0 <= k < n ==> ds[k] == Swap(p, q, k)
    ensures forall d :: 0 <= d < n ==> d in ds
    ensures forall k, m :: 0 <= k < m < n ==> ds[k] != ds[m]
  {
    forall d: nat | d < n
      ensures d in ds
    {
      assert ds[Swap(p, q, d)] == d;
    }
  }

  lemma ExchangedNames(n: nat, dim0: int, dim1: int, p: nat, q: nat) returns (ds: seq<nat>)
    requires Names(dim0, n, p) && Names(dim1, n, q)
    ensures Exchanged(n, dim0, dim1).Some? && NamesAll(Exchanged(n, dim0, dim1).value, n, ds)
    ensures |ds| == n && forall k :: 0 <= k < n ==> ds[k] == Swap(p, q, k) < n
  {
    ds := seq(n, k requires 0 <= k < n => Swap(p, q, k));
    assert Exchanged(n, dim0, dim1).value == ds;
    SwapsAll(n, p, q, ds);
  }

  lemma SwappedIndex(idx: Index, p: nat, q: nat, k: nat)
    requires p < |idx| && q < |idx| && k < |idx|
    ensures Swap(p, q, k) < |idx| && idx[p := idx[q]][q := idx[p]][Swap(p, q, k)] == idx[k]
    ensures idx[p := idx[q]][q := idx[p]][k] == idx[Swap(p, q, k)]
  {
  }

  /** torch.transpose: two dimensions change places. */
  lemma TransposedAt(t: Tensor, dim0: int, dim1: int, p: nat, q: nat)
    requires Names(dim0, |t.shape|, p) && Names(dim1, |t.shape|, q)
    ensures Exchanged(|t.shape|, dim0, dim1).Some?
    ensures var r := PermuteDims(t, Exchanged(|t.shape|, dim0, dim1).value);
            && r.Some? && Valid(r.value) && r.value.shape == t.shape[p := t.shape[q]][q := t.shape[p]]
            && forall idx :: InRange(r.value.shape, idx) ==> At(r.value, idx) == At(t, idx[p := idx[q]][q := idx[p]])
  {
    hide At, Exchanged, NamesAll, PermuteDims, Swap, Valid;
    var n := |t.shape|;
    var ds := ExchangedNames(n, dim0, dim1, p, q);
    PermutedAt(t, Exchanged(n, dim0, dim1).value, ds);
    var r := PermuteDims(t, Exchanged(n, dim0, dim1).value).value;
    forall k | 0 <= k < n
      ensures r.shape[k] == t.shape[p := t.shape[q]][q := t.shape[p]][k]
    {
      SwappedIndex(t.shape, p, q, k);
    }
    forall idx | InRange(r.shape, idx)
      ensures At(r, idx) == At(t, idx[p := idx[q]][q := idx[p]])
    {
      var jdx: Index := idx[p := idx[q]][q := idx[p]];
      forall k | 0 <= k < n
        ensures jdx[ds[k]] == idx[k]
      {
        SwappedIndex(idx, p, q, k);
      }
    }
  }

  lemma TransposeOnlyNames(n: nat, dim0: int, dim1: int)
    requires Exchanged(n, dim0, dim1).Some?
    ensures exists p: nat, q: nat :: Names(dim0, n, p) && Names(dim1, n, q)
  {
    assert Names(dim0, n, if dim0 < 0 then dim0 + n else dim0) && Names(dim1, n, if dim1 < 0 then dim1 + n else dim1);
  }

  // ----- new shapes

  /** A shape with `m` in place of -1. */
  function Filled(shape: seq<int>, m: nat): (r: Shape)
    requires forall k :: 0 <= k < |shape| ==> shape[k] >= -1
    ensures |r| == |shape|
  {
    seq(|shape|, k requires 0 <= k < |shape| => if shape[k] == -1 then m else shape[k])
  }

  lemma FilledFront(shape: seq<int>, m: nat)
    requires shape != [] && forall k :: 0 <= k < |shape| ==> shape[k] >= -1
    ensures Front(Filled(shape, m)) == Filled(Front(shape), m)
    ensures Last(Filled(shape, m)) == if Last(shape) == -1 then m else Last(shape)
  {
  }

  lemma CountTimes(shape: Shape)
    requires shape != []
    ensures Count(shape) == Count(Front(shape)) * Last(shape)
  {
    TimesIs(Count(Front(shape)), Last(shape));
  }

  lemma {:induction false} KnownIs(shape: seq<int>)
    requires forall k :: 0 <= k < |shape| ==> shape[k] >= -1
    ensures Known(shape) == Count(Filled(shape, 1))
  {
    if shape != [] {
      KnownIs(Front(shape));
      FilledFront(shape, 1);
      CountTimes(Filled(shape, 1));
    }
  }

  lemma {:induction false} FilledCount(shape: seq<int>, m: nat)
    requires (forall k :: 0 <= k < |shape| ==> shape[k] >= -1) && OneFree(shape)
    ensures Count(Filled(shape, m)) == if -1 in shape then m * Count(Filled(shape, 1)) else Count(Filled(shape, 1))
  {
    if shape != [] {
      FilledFront(shape, 1);
      FilledFront(shape, m);
      CountTimes(Filled(shape, 1));
      CountTimes(Filled(shape, m));
      FilledCount(Front(shape), m);
      if Last(shape) == -1 {
        assert -1 !in Front(shape);
        Commutes(Count(Filled(Front(shape), 1)), m);
      } else {
        assert -1 in shape <==> -1 in Front(shape);
        Regroups(m, Count(Filled(Front(shape), 1)), Last(shape));
      }
    }
  }

  lemma Commutes(x: nat, y: nat)
    ensures x * y == y * x && x * 1 == x
  {
  }

  lemma Regroups(x: nat, y: nat, z: nat)
    ensures (x * y) * z == x * (y * z)
  {
  }

  /** Entries that are left open are one and the same. */
  predicate OneOpen(shape: seq<int>) {
    forall i, j :: 0 <= i < |shape| && 0 <= j < |shape| && shape[i] == -1 && shape[j] == -1 ==> i == j
  }

  lemma OneOpenIsFree(shape: seq<int>)
    ensures OneOpen(shape) <==> OneFree(shape)
  {
    if OneFree(shape) {
      forall i, j | 0 <= i < |shape| && 0 <= j < |shape| && shape[i] == -1 && shape[j] == -1
        ensures i == j
      {
      }
    }
  }

  /**
   torch.reshape keeps the elements in their order. One -1 is replaced by the number that makes the
   counts equal; there must be one such number.
   */
  lemma ReshapedTo(t: Tensor, shape: seq<int>, m: nat)
    requires Valid(t) && OneOpen(shape) && (forall k :: 0 <= k < |shape| ==> shape[k] >= -1)
    requires Count(Filled(shape, m)) == Count(t.shape) && (-1 in shape ==> Count(Filled(shape, 1)) != 0)
    ensures ReshapeTo(t, shape) == Some(Tensor(Filled(shape, m), t.data))
  {
    hide Count, OneOpen;
    OneOpenIsFree(shape);
    KnownIs(shape);
    FilledCount(shape, m);
    if -1 in shape {
      Divides(m, Known(shape));
    } else {
      assert Expanded(shape, Count(t.shape)).value == Filled(shape, m);
    }
  }

  lemma Divides(m: nat, d: nat)
    requires d != 0
    ensures (m * d) % d == 0 && (m * d) / d == m
  {
    DivMod(m, d, 0);
  }

  /** Anything else is an error: entries below -1, several -1, and counts that do not fit. */
  lemma ReshapeOnly(t: Tensor, shape: seq<int>) returns (m: nat)
    requires Valid(t) && ReshapeTo(t, shape).Some?
    ensures OneOpen(shape) && (forall k :: 0 <= k < |shape| ==> shape[k] >= -1)
    ensures Count(Filled(shape, m)) == Count(t.shape) && (-1 in shape ==> Count(Filled(shape, 1)) != 0)
  {
    hide Count, OneOpen;
    OneOpenIsFree(shape);
    KnownIs(shape);
    m := if -1 in shape then Count(t.shape) / Known(shape) else 0;
    assert Expanded(shape, Count(t.shape)).value == Filled(shape, m);
  }

  lemma {:induction false} OnesCount(n: nat, rank: nat, row: nat)
    ensures Count(Ones(n) + [rank] + [row]) == Times(rank, row)
  {
    OnesFlat(n);
    FrontLast(Ones(n), rank);
    FrontLast(Ones(n) + [rank], row);
    TimesIs(1, rank);
  }

  /** Where the counts of the rows agree, both factors are reshaped. */
  lemma FactorsReshape(l: Lora, s: Shape)
    requires Adapter(l) && LeadsOne(l) && |s| >= 2 && Last(s) == Last(l.a.shape)
    ensures var rank, row := Last(l.b.shape), Last(l.a.shape);
            && Reshape(l.a, Ones(|s| - 2) + [rank] + [row]).Some?
            && (Reshape(l.b, Front(s) + [rank]).Some? <==> Count(Front(s)) == Count(Front(l.b.shape)))
  {
    var rank, row := Last(l.b.shape), Last(l.a.shape);
    UnbatchedShape(l);
    OnesCount(|s| - 2, rank, row);
    OnesCount(|l.a.shape| - 2, rank, row);
    FrontLast(Front(s), rank);
    if Times(Count(Front(s)), rank) == Times(Count(Front(l.b.shape)), rank) {
      TimesCancel(Count(Front(s)), Count(Front(l.b.shape)), rank);
    }
  }

  lemma RowsCount(l: Lora, s: Shape)
    requires Adapter(l) && s != [] && Last(s) == Last(l.a.shape)
    ensures Count(Front(s)) == Count(Front(l.b.shape)) ==> Count(s) == Count(ShapeOf(l))
    ensures Count(s) == Count(ShapeOf(l)) && Last(s) > 0 ==> Count(Front(s)) == Count(Front(l.b.shape))
  {
    FrontLast(Front(l.b.shape), Last(l.a.shape));
    if Last(s) > 0 && Count(s) == Count(ShapeOf(l)) {
      TimesCancel(Count(Front(s)), Count(Front(l.b.shape)), Last(s));
    }
  }

  /** The pair is reshaped exactly if its product may be and the last dimension stays. */
  lemma PairReshapes(l: Lora, shape: seq<int>)
    requires Adapter(l) && LeadsOne(l) && OneOpen(shape)
    ensures var r := ReshapeTo(Dense(l), shape);
            LoraReshape(l, shape).Some? <==>
              && r.Some? && |shape| >= 2 && Last(r.value.shape) == Last(l.a.shape)
              && (Last(l.a.shape) == 0 ==> Count(Front(r.value.shape)) == Count(Front(l.b.shape)))
  {
    hide At, Count, Dot, ExpandedEach, LeadsOne, OneFree, OneOpen;
    OneOpenIsFree(shape);
    var e := ExpandedEach(shape, Count(ShapeOf(l)));
    if e.Some? && |e.value| >= 2 && Last(e.value) == Last(l.a.shape) {
      FactorsReshape(l, e.value);
      RowsCount(l, e.value);
    }
    ExpandedLength(shape, Count(ShapeOf(l)));
  }

  lemma ExpandedLength(shape: seq<int>, count: nat)
    ensures ExpandedEach(shape, count).Some? ==> |ExpandedEach(shape, count).value| == |shape|
  {
  }

  // ----- index tuples

  /** An entry that selects something along a dimension of size `n`. */
  predicate EntryFits(item: Item, n: nat) {
    match item
    case Integer(i) => -(n as int) <= i < n
    case Slice(_, _, step) => step >= 1
    case Positions(list) => forall y :: 0 <= y < |list| ==> -(n as int) <= list[y] < n
  }

  lemma EntryResolves(item: Item, n: nat)
    ensures Resolve(item, n).Some? <==> EntryFits(item, n)
    ensures Resolve(item, n).Some? ==> (Resolve(item, n).value.One? <==> item.Integer?)
  {
    hide Clamp, Steps;
  }

  lemma {:induction false} EntriesResolve(items: seq<Item>, shape: Shape)
    requires |items| == |shape|
    ensures var r := ResolveAll(items, shape);
            && (r.Some? <==> forall d :: 0 <= d < |items| ==> EntryFits(items[d], shape[d]))
            && (r.Some? ==> forall d :: 0 <= d < |items| ==> (r.value[d].One? <==> items[d].Integer?))
  {
    hide EntryFits, Resolve;
    if items != [] {
      var n := |items| - 1;
      EntriesResolve(Front(items), Front(shape));
      EntryResolves(items[n], shape[n]);
    }
  }

  /** A tensor is indexed exactly if there are no more entries than dimensions and each fits its dimension. */
  lemma IndexedExactly(t: Tensor, items: Tuple)
    ensures IndexBy(t, items).Some?
            <==> |items| <= |t.shape| && forall d :: 0 <= d < |items| ==> EntryFits(items[d], t.shape[d])
  {
    if |items| <= |t.shape| {
      EntriesResolve(Padded(items, |t.shape|), t.shape);
      assert forall d :: |items| <= d < |t.shape| ==> EntryFits(Padded(items, |t.shape|)[d], t.shape[d]);
    }
  }

  /** Entry `d` of the tuple is an integer; entries that are not given are whole. */
  predicate IntegerAt(items: seq<Item>, d: nat) {
    d < |items| && items[d].Integer?
  }

  lemma {:induction false} DimensionKept(sels: seq<Sel>)
    ensures SelShape(sels) != [] <==> exists d :: 0 <= d < |sels| && sels[d].Many?
  {
    if sels != [] {
      var n := |sels| - 1;
      DimensionKept(Front(sels));
      assert forall d :: 0 <= d < n ==> sels[d] == Front(sels)[d];
      if exists d :: 0 <= d < n && Front(sels)[d].Many? {
        var d :| 0 <= d < n && Front(sels)[d].Many?;
        assert sels[d].Many?;
      }
    }
  }

  /** The constructor accepts the indexed factors. */
  lemma IndexedFactors(l: Lora, sels: seq<Sel>)
    requires Adapter(l) && LeadsOne(l) && |sels| == |l.b.shape|
    ensures var n := |sels|;
            Make(Indexed(l.a, SelsForA(l, sels)), Indexed(l.b, SelsForB(l, sels))).Some? <==>
              && (sels[n - 2].One? <==> sels[n - 1].One?)
              && (sels[n - 1].One? ==> Last(l.b.shape) == 1 && SelShape(sels[..n - 2]) != [])
  {
    hide At, Count, Expand, InRange, LeadSels, LeadsOne, SelShape;
    IndexRanks(l, sels);
    var m := |SelShape(sels[..|sels| - 2])|;
    assert m > 0 ==> Ones(m)[m - 1] == 1;
  }

  /**
   The pair is indexed exactly if its product may be, the tuple is not empty, and no integer stands for
   one of the last two dimensions alone; for both only with rank 1 and another dimension kept.
   */
  lemma PairIndexes(l: Lora, items: Tuple)
    requires Adapter(l) && LeadsOne(l)
    ensures var n := |l.b.shape|;
            LoraIndex(l, items).Some? <==>
              && items != [] && IndexBy(Dense(l), items).Some?
              && (IntegerAt(items, n - 2) <==> IntegerAt(items, n - 1))
              && (IntegerAt(items, n - 1) ==> Last(l.b.shape) == 1 && exists d: nat :: d < n - 2 && !IntegerAt(items, d))
  {
    hide At, Dot, IndexBy, IntegerAt, LeadsOne, Make, Selections, SelShape, SelsForA, SelsForB;
    var n := |l.b.shape|;
    LoraIndexIs(l, items);
    SelectionsAre(l, items);
    if Selections(l, items).Some? {
      var sels := Selections(l, items).value;
      IndexedFactors(l, sels);
      DimensionKept(sels[..n - 2]);
      KeptEntries(sels[..n - 2], items);
    }
  }

  lemma LoraIndexIs(l: Lora, items: Tuple)
    requires Adapter(l)
    ensures Selections(l, items).Some? ==> |Selections(l, items).value| == |l.b.shape|
    ensures LoraIndex(l, items).Some? <==>
              && items != [] && Selections(l, items).Some?
              && var sels := Selections(l, items).value;
                 Make(Indexed(l.a, SelsForA(l, sels)), Indexed(l.b, SelsForB(l, sels))).Some?
  {
    hide At, Dot, Make, ResolveAll, SelShape, SelsForA, SelsForB;
  }

  /** The selections of the tuple are those on the product, and drop the dimensions of its integers. */
  lemma SelectionsAre(l: Lora, items: Tuple)
    requires Adapter(l)
    ensures Selections(l, items).Some? <==> IndexBy(Dense(l), items).Some?
    ensures Selections(l, items).Some? ==>
              && |Selections(l, items).value| == |l.b.shape|
              && forall d: nat :: d < |l.b.shape| ==> (Selections(l, items).value[d].One? <==> IntegerAt(items, d))
  {
    hide At, Dot, EntryFits, ResolveAll;
    var n := |l.b.shape|;
    if |items| <= n {
      EntriesResolve(Padded(items, n), ShapeOf(l));
      assert forall d: nat :: d < n ==> (Padded(items, n)[d].Integer? <==> IntegerAt(items, d));
    }
  }

  lemma KeptEntries(lead: seq<Sel>, items: seq<Item>)
    requires forall d: nat :: d < |lead| ==> (lead[d].One? <==> IntegerAt(items, d))
    ensures (exists d :: 0 <= d < |lead| && lead[d].Many?) <==> exists d: nat :: d < |lead| && !IntegerAt(items, d)
  {
    if exists d :: 0 <= d < |lead| && lead[d].Many? {
      var d :| 0 <= d < |lead| && lead[d].Many?;
      assert !IntegerAt(items, d);
    }
    if exists d: nat :: d < |lead| && !IntegerAt(items, d) {
      var d: nat :| d < |lead| && !IntegerAt(items, d);
      assert lead[d].Many?;
    }
  }

  // ----- several pairs

  lemma MadeOf(a: Tensor, b: Tensor)
    requires Adapter(Lora(a, b))
    ensures Make(a, b) == Some(Lora(a, b))
  {
    hide Count;
  }

  /** Matrices are concatenated exactly if there are any and all share one A. */
  lemma PairsConcatenate(ls: seq<Lora>)
    requires Adapters(ls) && ls != [] && |ls[0].b.shape| == 2
    ensures LoraCat(ls).Some? <==> forall i :: 0 <= i < |ls| ==> ls[i].a == ls[0].a
  {
    hide At, CatRows, Count, Dense, Denses;
    if forall i :: 0 <= i < |ls| ==> ls[i].a == ls[0].a {
      CatSimulates(ls);
      MadeOf(ls[0].a, CatRows(BFactors(ls)).value);
    }
  }

  /** Pairs are stacked exactly if there are any and all have the same shapes. */
  lemma PairsStack(ls: seq<Lora>)
    requires Adapters(ls)
    ensures LoraStack(ls).Some? <==>
              && ls != []
              && forall i :: 0 <= i < |ls| ==> ls[i].a.shape == ls[0].a.shape && ls[i].b.shape == ls[0].b.shape
  {
    hide At, Flattened;
    var a, b := AFactors(ls), BFactors(ls);
    assert forall i :: 0 <= i < |ls| ==> a[i] == ls[i].a && b[i] == ls[i].b;
    if Stack(a).Some? && Stack(b).Some? {
      assert Last(b[0].shape) == b[0].shape[|b[0].shape| - 1];
      assert Stack(a).value.shape == [|ls|] + a[0].shape && Stack(b).value.shape == [|ls|] + b[0].shape;
    }
  }
}

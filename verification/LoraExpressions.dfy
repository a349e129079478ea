/**
 Expressions over one LoRA tensor, evaluated on the factor pair and on the tensor it stands for:
 whatever the program computes on the pair without raising an error is the same expression of B·A.
 */
module LoraExpressions {
  import opened Base
  import opened Tensors
  import opened Lora

  // ----- concatenation along the rows

  /** The product of B's row `i` and A's column `j`, for an unbatched pair of matrices. */
  lemma MatrixFactors(a: Tensor, b: Tensor, i: nat, j: nat, k: nat)
    requires |a.shape| == 2
    ensures RowFactor(Lora(a, b), [i, j], k) == At(b, [i, k])
    ensures ColumnFactor(Lora(a, b), [i, j], k) == At(a, [k, j])
  {
    assert Front([i, j]) + [k] == [i, k];
    assert LeadOf(a.shape, [i, j]) + [k] + [j] == [k, j];
  }

  /** Row `i` of the first pair and row `i2` of the second give the same element when the rows of B agree. */
  lemma SameRow(a: Tensor, b1: Tensor, i1: nat, b2: Tensor, i2: nat, j: nat, rank: nat)
    requires |a.shape| == 2 && forall k: nat :: k < rank ==> At(b1, [i1, k]) == At(b2, [i2, k])
    ensures Dot(Lora(a, b1), [i1, j], rank) == Dot(Lora(a, b2), [i2, j], rank)
  {
    forall k | 0 <= k < rank
      ensures SameFactors(Lora(a, b1), [i1, j], Lora(a, b2), [i2, j], k)
    {
      MatrixFactors(a, b1, i1, j, k);
      MatrixFactors(a, b2, i2, j, k);
    }
    DotSame(Lora(a, b1), [i1, j], Lora(a, b2), [i2, j], rank);
  }

  /** A row of the upper part of the concatenation. */
  lemma CatPairUpper(a: Tensor, b1: Tensor, b2: Tensor, b: Tensor, i: nat, j: nat)
    requires Adapter(Lora(a, b1)) && Adapter(Lora(a, b2)) && |a.shape| == 2
    requires CatTwo(b1, b2) == Some(b) && i < b1.shape[0] && j < a.shape[1]
    ensures CatTwo(Dense(Lora(a, b1)), Dense(Lora(a, b2))).Some?
    ensures At(CatTwo(Dense(Lora(a, b1)), Dense(Lora(a, b2))).value, [i] + [j]) == Dot(Lora(a, b), [i, j], b1.shape[1])
  {
    var d1, d2 := Dense(Lora(a, b1)), Dense(Lora(a, b2));
    assert d1.shape[1..] == [a.shape[1]] == d2.shape[1..];
    CatTwoFirst(d1, d2, i, [j]);
    forall k: nat | k < b1.shape[1]
      ensures At(b1, [i, k]) == At(b, [i, k])
    {
      CatTwoFirst(b1, b2, i, [k]);
      assert [i, k] == [i] + [k];
    }
    assert [i] + [j] == [i, j] && InRange(d1.shape, [i, j]);
    SameRow(a, b1, i, b, i, j, b1.shape[1]);
  }

  lemma CatPairLower(a: Tensor, b1: Tensor, b2: Tensor, b: Tensor, i: nat, to: nat, j: nat)
    requires Adapter(Lora(a, b1)) && Adapter(Lora(a, b2)) && |a.shape| == 2
    requires CatTwo(b1, b2) == Some(b) && i < b2.shape[0] && j < a.shape[1] && to == b1.shape[0] + i
    ensures CatTwo(Dense(Lora(a, b1)), Dense(Lora(a, b2))).Some?
    ensures At(CatTwo(Dense(Lora(a, b1)), Dense(Lora(a, b2))).value, [to] + [j]) == Dot(Lora(a, b), [to, j], b1.shape[1])
  {
    var d1, d2 := Dense(Lora(a, b1)), Dense(Lora(a, b2));
    assert d1.shape[1..] == [a.shape[1]] == d2.shape[1..];
    CatTwoSecond(d1, d2, i, to, [j]);
    forall k: nat | k < b1.shape[1]
      ensures At(b2, [i, k]) == At(b, [to, k])
    {
      CatTwoSecond(b1, b2, i, to, [k]);
      assert [to, k] == [to] + [k] && [i, k] == [i] + [k];
    }
    assert [i] + [j] == [i, j] && InRange(d2.shape, [i, j]);
    SameRow(a, b2, i, b, to, j, b1.shape[1]);
  }

  lemma CatPairElement(a: Tensor, b1: Tensor, b2: Tensor, b: Tensor, t: Tensor, i: nat, j: nat)
    requires Adapter(Lora(a, b1)) && Adapter(Lora(a, b2)) && |a.shape| == 2 && CatTwo(b1, b2) == Some(b)
    requires CatTwo(Dense(Lora(a, b1)), Dense(Lora(a, b2))) == Some(t)
    requires i < b.shape[0] && j < a.shape[1]
    ensures At(t, [i] + [j]) == Dot(Lora(a, b), [i, j], b1.shape[1])
  {
    hide At, Count, Dense, Dot, InRange;
    if i < b1.shape[0] {
      CatPairUpper(a, b1, b2, b, i, j);
    } else {
      CatPairLower(a, b1, b2, b, i - b1.shape[0], i, j);
    }
  }

  lemma CatPairAt(a: Tensor, b1: Tensor, b2: Tensor, b: Tensor, t: Tensor, idx: Index)
    requires Adapter(Lora(a, b1)) && Adapter(Lora(a, b2)) && |a.shape| == 2 && CatTwo(b1, b2) == Some(b)
    requires CatTwo(Dense(Lora(a, b1)), Dense(Lora(a, b2))) == Some(t) && Adapter(Lora(a, b))
    requires InRange(ShapeOf(Lora(a, b)), idx)
    ensures At(t, idx) == Dot(Lora(a, b), idx, Last(b.shape))
  {
    hide At, Count, Dense, Dot, Flat;
    assert idx == [idx[0]] + [idx[1]] == [idx[0], idx[1]];
    CatPairElement(a, b1, b2, b, t, idx[0], idx[1]);
  }

  lemma CatPairShapes(a: Tensor, b1: Tensor, b2: Tensor)
    requires Adapter(Lora(a, b1)) && Adapter(Lora(a, b2)) && |a.shape| == 2
    ensures CatTwo(b1, b2).Some? && Adapter(Lora(a, CatTwo(b1, b2).value))
    ensures var t := CatTwo(Dense(Lora(a, b1)), Dense(Lora(a, b2)));
            t.Some? && Valid(t.value) && t.value.shape == ShapeOf(Lora(a, CatTwo(b1, b2).value))
  {
    hide At, Count, Dot, Flat, LeadOf;
    assert b1.shape[1..] == [b1.shape[1]] == b2.shape[1..];
    assert Dense(Lora(a, b1)).shape[1..] == [a.shape[1]] == Dense(Lora(a, b2)).shape[1..];
    CatTwoValid(b1, b2);
    CatTwoValid(Dense(Lora(a, b1)), Dense(Lora(a, b2)));
  }

  /** With a common A, concatenating the Bs concatenates the products. */
  lemma CatPair(a: Tensor, b1: Tensor, b2: Tensor)
    requires Adapter(Lora(a, b1)) && Adapter(Lora(a, b2)) && |a.shape| == 2
    ensures CatTwo(b1, b2).Some? && Adapter(Lora(a, CatTwo(b1, b2).value))
    ensures CatTwo(Dense(Lora(a, b1)), Dense(Lora(a, b2))) == Some(Dense(Lora(a, CatTwo(b1, b2).value)))
  {
    CatPairShapes(a, b1, b2);
    hide At, CatTwo, Count, Dense, Dot, Flat, InRange, LeadOf;
    var b := CatTwo(b1, b2).value;
    var r := Lora(a, b);
    var t := CatTwo(Dense(Lora(a, b1)), Dense(Lora(a, b2))).value;
    forall idx | InRange(t.shape, idx)
      ensures |idx| == 2 && At(t, idx) == Dot(r, idx, Last(b.shape))
    {
      RangeLength(t.shape, idx);
      CatPairAt(a, b1, b2, b, t, idx);
    }
    ProductIsDense(r, t);
  }

  lemma RangeLength(shape: Shape, idx: Index)
    requires InRange(shape, idx)
    ensures |idx| == |shape|
  {
  }

  ghost predicate Adapters(ls: seq<Lora>) {
    forall i :: 0 <= i < |ls| ==> Adapter(ls[i])
  }

  function AFactors(ls: seq<Lora>): seq<Tensor> {
    seq(|ls|, i requires 0 <= i < |ls| => ls[i].a)
  }

  function BFactors(ls: seq<Lora>): seq<Tensor> {
    seq(|ls|, i requires 0 <= i < |ls| => ls[i].b)
  }

  ghost function Denses(ls: seq<Lora>): seq<Tensor>
    requires Adapters(ls)
  {
    seq(|ls|, i requires 0 <= i < |ls| => Dense(ls[i]))
  }

  lemma {:induction false} CatTail(ts: seq<Tensor>)
    requires CatRows(ts).Some? && ts[0].shape != []
    ensures var s := CatRows(ts).value.shape; |s| == |ts[0].shape| && s[1..] == ts[0].shape[1..]
  {
    if |ts| > 1 {
      CatTail(Front(ts));
    }
  }

  /** torch.cat along dimension 0: matrices only when all share one A. */
  ghost function LoraCat(ls: seq<Lora>): (r: Option<Lora>)
    requires Adapters(ls)
    ensures r.Some? ==> Adapter(r.value)
  {
    if ls == [] then None
    else if |ls[0].b.shape| > 2 then
      CatRowsValid(AFactors(ls));
      CatOfB(ls);
      match (CatRows(AFactors(ls)), CatRows(BFactors(ls)))
      case (Some(a), Some(b)) => Make(a, b)
      case _ => None
    else if forall i :: 0 <= i < |ls| ==> ls[i].a == ls[0].a then
      CatOfB(ls);
      match CatRows(BFactors(ls))
      case None => None
      case Some(b) => Make(ls[0].a, b)
    else None
  }

  lemma CatOfB(ls: seq<Lora>)
    requires Adapters(ls) && ls != []
    ensures var b := CatRows(BFactors(ls));
            b.Some? ==> Valid(b.value) && |b.value.shape| == |ls[0].b.shape| && Last(b.value.shape) >= 1
  {
    if CatRows(BFactors(ls)).Some? {
      CatRowsValid(BFactors(ls));
      CatTail(BFactors(ls));
      var s := ls[0].b.shape;
      assert Last(s[1..]) == Last(s);
      assert Last(CatRows(BFactors(ls)).value.shape[1..]) == Last(CatRows(BFactors(ls)).value.shape);
    }
  }

  lemma {:induction false} CatSimulates(ls: seq<Lora>)
    requires ls != [] && Adapters(ls) && |ls[0].b.shape| == 2
    requires forall i :: 0 <= i < |ls| ==> ls[i].a == ls[0].a
    ensures CatRows(BFactors(ls)).Some?
    ensures var r := Lora(ls[0].a, CatRows(BFactors(ls)).value);
            Adapter(r) && CatRows(Denses(ls)) == Some(Dense(r))
  {
    if |ls| > 1 {
      CatSimulates(Front(ls));
      assert Front(BFactors(ls)) == BFactors(Front(ls)) && Front(Denses(ls)) == Denses(Front(ls));
      CatPair(ls[0].a, CatRows(BFactors(Front(ls))).value, Last(ls).b);
    }
  }

  // ----- expressions

  datatype Expr =
    | Whole
    | Select(of: Expr, items: Tuple)
    | Reshaped(of: Expr, shape: seq<int>)
    | Permuted(of: Expr, dims: seq<int>)
    | Transposed(of: Expr, dim0: int, dim1: int)
    | Concatenated(parts: seq<Expr>)

  /** The value on the factor pair; None where the program raises an error. */
  ghost function EvalLora(e: Expr, l: Lora): (r: Option<Lora>)
    requires Adapter(l)
    ensures r.Some? ==> Adapter(r.value)
    decreases e, 1
  {
    match e
    case Whole => Some(l)
    case Select(of, items) =>
      var v := EvalLora(of, l);
      if v.None? then None else LoraIndex(v.value, items)
    case Reshaped(of, shape) =>
      var v := EvalLora(of, l);
      if v.None? then None else LoraReshape(v.value, shape)
    case Permuted(of, dims) =>
      var v := EvalLora(of, l);
      if v.None? then None else LoraPermute(v.value, dims)
    case Transposed(of, dim0, dim1) =>
      var v := EvalLora(of, l);
      if v.None? then None
      else
        var dims := Exchanged(|v.value.b.shape|, dim0, dim1);
        if dims.None? then None else LoraPermute(v.value, dims.value)
    case Concatenated(parts) =>
      var vs := EvalLoras(parts, l);
      if vs.None? then None else LoraCat(vs.value)
  }

  ghost function EvalLoras(es: seq<Expr>, l: Lora): (r: Option<seq<Lora>>)
    requires Adapter(l)
    ensures r.Some? ==> Adapters(r.value)
    decreases es, 0
  {
    if es == [] then Some([])
    else
      var v, vs := EvalLora(es[0], l), EvalLoras(es[1..], l);
      if v.None? || vs.None? then None else Some([v.value] + vs.value)
  }

  /** The value on a dense tensor. */
  ghost function EvalDense(e: Expr, t: Tensor): (r: Option<Tensor>)
    requires Valid(t)
    ensures r.Some? ==> Valid(r.value)
    decreases e, 1
  {
    match e
    case Whole => Some(t)
    case Select(of, items) =>
      var v := EvalDense(of, t);
      if v.None? then None else IndexBy(v.value, items)
    case Reshaped(of, shape) =>
      var v := EvalDense(of, t);
      if v.None? then None else ReshapeTo(v.value, shape)
    case Permuted(of, dims) =>
      var v := EvalDense(of, t);
      if v.None? then None else PermuteDims(v.value, dims)
    case Transposed(of, dim0, dim1) =>
      var v := EvalDense(of, t);
      if v.None? then None
      else
        var dims := Exchanged(|v.value.shape|, dim0, dim1);
        if dims.None? then None else PermuteDims(v.value, dims.value)
    case Concatenated(parts) =>
      var vs := EvalDenses(parts, t);
      if vs.None? then None
      else
        CatRowsValid(vs.value);
        CatRows(vs.value)
  }

  ghost function EvalDenses(es: seq<Expr>, t: Tensor): (r: Option<seq<Tensor>>)
    requires Valid(t)
    ensures r.Some? ==> forall i :: 0 <= i < |r.value| ==> Valid(r.value[i])
    decreases es, 0
  {
    if es == [] then Some([])
    else
      var v, vs := EvalDense(es[0], t), EvalDenses(es[1..], t);
      if v.None? || vs.None? then None else Some([v.value] + vs.value)
  }

  /** No index tuple ends in two integers, no shape has two open dimensions, and only matrices are concatenated. */
  ghost predicate KeepsMatrices(e: Expr, l: Lora)
    requires Adapter(l)
    decreases e
  {
    match e
    case Whole => true
    case Select(of, items) =>
      && KeepsMatrices(of, l)
      && var v := EvalLora(of, l);
         v.Some? && Selections(v.value, items).Some? ==> !TwoIntegers(Selections(v.value, items).value)
    case Reshaped(of, shape) => KeepsMatrices(of, l) && OneFree(shape)
    case Permuted(of, _) => KeepsMatrices(of, l)
    case Transposed(of, _, _) => KeepsMatrices(of, l)
    case Concatenated(parts) =>
      && (forall i :: 0 <= i < |parts| ==> KeepsMatrices(parts[i], l))
      && var vs := EvalLoras(parts, l);
         vs.Some? && vs.value != [] ==> |vs.value[0].b.shape| == 2
  }

  /** The expression evaluates on the pair, and to the same on the product. */
  ghost predicate Simulated(e: Expr, l: Lora)
    requires Adapter(l)
  {
    var r := EvalLora(e, l);
    r.Some? && LeadsOne(r.value) && EvalDense(e, Dense(l)) == Some(Dense(r.value))
  }

  lemma SelectSimulates(of: Expr, items: Tuple, l: Lora)
    requires Adapter(l) && Simulated(of, l)
    requires EvalLora(Select(of, items), l).Some? && KeepsMatrices(Select(of, items), l)
    ensures Simulated(Select(of, items), l)
  {
    IndexSimulates(EvalLora(of, l).value, items);
  }

  lemma ReshapedSimulates(of: Expr, shape: seq<int>, l: Lora)
    requires Adapter(l) && Simulated(of, l) && EvalLora(Reshaped(of, shape), l).Some? && OneFree(shape)
    ensures Simulated(Reshaped(of, shape), l)
  {
    ReshapeSimulates(EvalLora(of, l).value, shape);
  }

  lemma PermutedSimulates(of: Expr, dims: seq<int>, l: Lora)
    requires Adapter(l) && Simulated(of, l) && EvalLora(Permuted(of, dims), l).Some?
    ensures Simulated(Permuted(of, dims), l)
  {
    PermuteSimulates(EvalLora(of, l).value, dims);
  }

  lemma DenseRank(v: Lora)
    requires Adapter(v)
    ensures |Dense(v).shape| == |v.b.shape|
  {
  }

  lemma TransposedSimulates(of: Expr, dim0: int, dim1: int, l: Lora)
    requires Adapter(l) && Simulated(of, l) && EvalLora(Transposed(of, dim0, dim1), l).Some?
    ensures Simulated(Transposed(of, dim0, dim1), l)
  {
    var v := EvalLora(of, l).value;
    DenseRank(v);
    hide Dense, Exchanged, LoraPermute, PermuteDims;
    PermuteSimulates(v, Exchanged(|v.b.shape|, dim0, dim1).value);
  }

  lemma ConcatenatedSimulates(parts: seq<Expr>, l: Lora)
    requires Adapter(l) && EvalLoras(parts, l).Some? && EvalDenses(parts, Dense(l)) == Some(Denses(EvalLoras(parts, l).value))
    requires forall i :: 0 <= i < |EvalLoras(parts, l).value| ==> LeadsOne(EvalLoras(parts, l).value[i])
    requires EvalLora(Concatenated(parts), l).Some? && KeepsMatrices(Concatenated(parts), l)
    ensures Simulated(Concatenated(parts), l)
  {
    CatSimulates(EvalLoras(parts, l).value);
  }

  /** Any expression that evaluates on the pair evaluates to the same on the product. */
  lemma {:induction false} EvalSimulates(e: Expr, l: Lora)
    requires Adapter(l) && LeadsOne(l) && EvalLora(e, l).Some? && KeepsMatrices(e, l)
    ensures Simulated(e, l)
    decreases e, 1
  {
    match e
    case Whole =>
    case Select(of, items) =>
      EvalSimulates(of, l);
      SelectSimulates(of, items, l);
    case Reshaped(of, shape) =>
      EvalSimulates(of, l);
      ReshapedSimulates(of, shape, l);
    case Permuted(of, dims) =>
      EvalSimulates(of, l);
      PermutedSimulates(of, dims, l);
    case Transposed(of, dim0, dim1) =>
      EvalSimulates(of, l);
      TransposedSimulates(of, dim0, dim1, l);
    case Concatenated(parts) =>
      EvalsSimulate(parts, l);
      ConcatenatedSimulates(parts, l);
  }

  lemma {:induction false} EvalsSimulate(es: seq<Expr>, l: Lora)
    requires Adapter(l) && LeadsOne(l) && EvalLoras(es, l).Some?
    requires forall i :: 0 <= i < |es| ==> KeepsMatrices(es[i], l)
    ensures var rs := EvalLoras(es, l).value;
            && EvalDenses(es, Dense(l)) == Some(Denses(rs))
            && forall i :: 0 <= i < |rs| ==> LeadsOne(rs[i])
    decreases es, 0
  {
    if es == [] {
      assert Denses([]) == [];
    } else {
      EvalSimulates(es[0], l);
      assert forall i :: 0 <= i < |es[1..]| ==> es[1..][i] == es[i + 1];
      EvalsSimulate(es[1..], l);
      var v, vs := EvalLora(es[0], l).value, EvalLoras(es[1..], l).value;
      DensesCons(v, vs);
      assert forall i :: 0 < i < |[v] + vs| ==> ([v] + vs)[i] == vs[i - 1];
    }
  }

  lemma DensesCons(v: Lora, vs: seq<Lora>)
    requires Adapter(v) && Adapters(vs)
    ensures Adapters([v] + vs) && Denses([v] + vs) == [Dense(v)] + Denses(vs)
  {
    var rs := [v] + vs;
    assert Adapters(rs);
    assert |Denses(rs)| == |rs| && |Denses(vs)| == |vs|;
    forall i | 0 <= i < |rs|
      ensures Denses(rs)[i] == ([Dense(v)] + Denses(vs))[i]
    {
      if i > 0 {
        assert rs[i] == vs[i - 1];
        assert Denses(vs)[i - 1] == Dense(vs[i - 1]);
      }
    }
  }
}

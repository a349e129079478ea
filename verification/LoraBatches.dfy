/** Stacking pairs, and concatenating pairs of three or more dimensions along the first. */
module LoraBatches {
  import opened Base
  import opened Arithmetic
  import opened Tensors
  import opened Lora
  import opened LoraExpressions
  import opened LoraItems

  // ----- stack

  function Flattened(datas: seq<seq<real>>): seq<real> {
    if datas == [] then [] else Flattened(Front(datas)) + Last(datas)
  }

  function Datas(ts: seq<Tensor>): seq<seq<real>> {
    seq(|ts|, i requires 0 <= i < |ts| => ts[i].data)
  }

  /** torch.stack along a new first dimension; all shapes must be the same. */
  function Stack(ts: seq<Tensor>): Option<Tensor> {
    if ts == [] || exists i :: 0 <= i < |ts| && ts[i].shape != ts[0].shape then None
    else Some(Tensor([|ts|] + ts[0].shape, Flattened(Datas(ts))))
  }

  lemma {:induction false} JoinedAt(datas: seq<seq<real>>, size: nat, x: nat, k: nat)
    requires forall i :: 0 <= i < |datas| ==> |datas[i]| == size
    ensures |Flattened(datas)| == Times(|datas|, size)
    ensures x < |datas| && k < size ==> BlockAt(Flattened(datas), size, x, k) == datas[x][k]
  {
    if datas != [] {
      JoinedAt(Front(datas), size, x, k);
      if x < |datas| - 1 && k < size {
        TimesBound(x, |datas| - 1, size, k);
      }
    }
  }

  lemma StackAt(ts: seq<Tensor>, x: nat, idx: Index)
    requires Stack(ts).Some? && forall i :: 0 <= i < |ts| ==> Valid(ts[i])
    ensures Valid(Stack(ts).value)
    ensures x < |ts| ==> At(Stack(ts).value, [x] + idx) == At(ts[x], idx)
  {
    var shape := ts[0].shape;
    JoinedAt(Datas(ts), Count(shape), 0, 0);
    FlatCons(|ts|, shape, 0, seq(|shape|, _ => 0));
    if x < |ts| {
      ConsAt(Stack(ts).value, |ts|, shape, x, idx);
      if InRange(shape, idx) {
        FlatBound(shape, idx);
        JoinedAt(Datas(ts), Count(shape), x, Flat(shape, idx));
      }
    }
  }

  ghost function LoraStack(ls: seq<Lora>): Option<Lora> {
    match (Stack(AFactors(ls)), Stack(BFactors(ls)))
    case (Some(a), Some(b)) => Make(a, b)
    case _ => None
  }

  /** Stacking pairs stacks the tensors they stand for. */
  lemma StackSimulates(ls: seq<Lora>)
    requires Adapters(ls)
    requires LoraStack(ls).Some?
    ensures Adapter(LoraStack(ls).value) && Stack(Denses(ls)) == Some(Dense(LoraStack(ls).value))
  {
    hide At, Dot, Stack;
    var r := LoraStack(ls).value;
    StackShapes(ls, r);
    var t := Stack(Denses(ls)).value;
    forall full | InRange(t.shape, full)
      ensures At(t, full) == Dot(r, full, Last(r.b.shape))
    {
      assert full == [full[0]] + full[1..];
      StackDot(ls, r, full[0], full[1..]);
    }
    ProductIsDense(r, t);
  }

  lemma StackShapes(ls: seq<Lora>, r: Lora)
    requires Adapters(ls) && LoraStack(ls) == Some(r)
    ensures ls != [] && Adapter(r) && r.a.shape == [|ls|] + ls[0].a.shape && r.b.shape == [|ls|] + ls[0].b.shape
    ensures ShapeOf(r) == [|ls|] + ShapeOf(ls[0]) && Last(r.b.shape) == Last(ls[0].b.shape)
    ensures Stack(Denses(ls)).Some? && Valid(Stack(Denses(ls)).value) && Stack(Denses(ls)).value.shape == ShapeOf(r)
  {
    StackAt(AFactors(ls), 0, []);
    StackAt(BFactors(ls), 0, []);
    SameShapes(ls);
    StackAt(Denses(ls), 0, []);
  }

  lemma SameShapes(ls: seq<Lora>)
    requires Adapters(ls) && LoraStack(ls).Some?
    ensures forall i :: 0 <= i < |ls| ==> ls[i].a.shape == ls[0].a.shape && ls[i].b.shape == ls[0].b.shape
    ensures Stack(Denses(ls)).Some?
  {
    forall i | 0 <= i < |ls|
      ensures ls[i].a.shape == ls[0].a.shape && ls[i].b.shape == ls[0].b.shape
    {
      assert AFactors(ls)[i].shape == AFactors(ls)[0].shape && BFactors(ls)[i].shape == BFactors(ls)[0].shape;
    }
    assert forall i :: 0 <= i < |ls| ==> Denses(ls)[i].shape == ShapeOf(ls[i]) == ShapeOf(ls[0]);
  }

  lemma StackFactors(ls: seq<Lora>, r: Lora, x: nat, idx: Index, k: nat)
    requires Adapters(ls)
    requires Stack(AFactors(ls)) == Some(r.a) && Stack(BFactors(ls)) == Some(r.b)
    requires x < |ls| && ls[x].a.shape == ls[0].a.shape && |idx| == |ls[0].a.shape| == |ls[0].b.shape| >= 2
    requires |r.a.shape| == |idx| + 1
    ensures SameFactors(ls[x], idx, r, [x] + idx, k)
  {
    var row := Front(idx) + [k];
    StackAt(BFactors(ls), x, row);
    assert Front([x] + idx) + [k] == [x] + row;
    var column := LeadOf(ls[0].a.shape, idx) + [k] + [Last(idx)];
    StackAt(AFactors(ls), x, column);
    LeadOfCons(|ls|, ls[0].a.shape, x, idx);
    assert LeadOf(r.a.shape, [x] + idx) + [k] + [Last(idx)] == [x] + column;
  }

  lemma StackDot(ls: seq<Lora>, r: Lora, x: nat, idx: Index)
    requires Adapters(ls)
    requires LoraStack(ls) == Some(r) && InRange([|ls|] + ShapeOf(ls[0]), [x] + idx)
    requires Stack(Denses(ls)).Some? && |r.a.shape| == |idx| + 1
    ensures At(Stack(Denses(ls)).value, [x] + idx) == Dot(r, [x] + idx, Last(ls[0].b.shape))
  {
    InRangeCons(|ls|, ShapeOf(ls[0]), x, idx);
    SameShapes(ls);
    StackAt(Denses(ls), x, idx);
    forall k | 0 <= k < Last(ls[0].b.shape)
      ensures SameFactors(ls[x], idx, r, [x] + idx, k)
    {
      StackFactors(ls, r, x, idx, k);
    }
    DotSame(ls[x], idx, r, [x] + idx, Last(ls[0].b.shape));
  }

  // ----- concatenation of batches

  /** Two factor pairs with the tails of their shapes in common, seen at a block of each. */
  ghost predicate SameBlocks(l: Lora, x: nat, r: Lora, y: nat) {
    && |l.a.shape| == |l.b.shape| == |r.a.shape| == |r.b.shape| && |l.b.shape| > 2
    && l.a.shape[1..] == r.a.shape[1..] && x < l.a.shape[0] && y < r.a.shape[0]
    && (forall idx: Index {:trigger At(l.a, [x] + idx)} :: At(l.a, [x] + idx) == At(r.a, [y] + idx))
    && (forall idx: Index {:trigger At(l.b, [x] + idx)} :: At(l.b, [x] + idx) == At(r.b, [y] + idx))
  }

  lemma BlockFactors(l: Lora, x: nat, r: Lora, y: nat, idx: Index, k: nat)
    requires SameBlocks(l, x, r, y) && |idx| + 1 == |l.b.shape|
    ensures SameFactors(l, [x] + idx, r, [y] + idx, k)
  {
    BlockInFront(x, idx, k);
    BlockInFront(y, idx, k);
    assert At(l.b, [x] + (Front(idx) + [k])) == At(r.b, [y] + (Front(idx) + [k]));
    LeadOfBlock(l.a.shape, x, idx, k);
    LeadOfBlock(r.a.shape, y, idx, k);
    var column := LeadOf(l.a.shape[1..], idx) + [k] + [Last(idx)];
    assert At(l.a, [x] + column) == At(r.a, [y] + column);
  }

  lemma BlockDots(l: Lora, x: nat, r: Lora, y: nat, idx: Index, n: nat)
    requires SameBlocks(l, x, r, y) && |idx| + 1 == |l.b.shape|
    ensures Dot(l, [x] + idx, n) == Dot(r, [y] + idx, n)
  {
    forall k | 0 <= k < n
      ensures SameFactors(l, [x] + idx, r, [y] + idx, k)
    {
      BlockFactors(l, x, r, y, idx, k);
    }
    DotSame(l, [x] + idx, r, [y] + idx, n);
  }

  /** Both factors of `r` are those of `l1` with those of `l2` behind them. */
  ghost predicate Joins(l1: Lora, l2: Lora, r: Lora) {
    && Adapter(l1) && Adapter(l2) && Adapter(r) && |l1.b.shape| > 2
    && l1.a.shape[0] == l1.b.shape[0] && l2.a.shape[0] == l2.b.shape[0]
    && CatTwo(l1.a, l2.a) == Some(r.a) && CatTwo(l1.b, l2.b) == Some(r.b)
  }

  lemma FirstBlocksSame(l1: Lora, l2: Lora, r: Lora, x: nat)
    requires Joins(l1, l2, r) && x < l1.b.shape[0]
    ensures SameBlocks(l1, x, r, x)
  {
    forall idx: Index
      ensures At(l1.a, [x] + idx) == At(r.a, [x] + idx) && At(l1.b, [x] + idx) == At(r.b, [x] + idx)
    {
      CatTwoFirst(l1.a, l2.a, x, idx);
      CatTwoFirst(l1.b, l2.b, x, idx);
    }
  }

  lemma SecondBlocksSame(l1: Lora, l2: Lora, r: Lora, x: nat, to: nat)
    requires Joins(l1, l2, r) && x < l2.b.shape[0] && to == l1.b.shape[0] + x
    ensures SameBlocks(l2, x, r, to)
  {
    forall idx: Index
      ensures At(l2.a, [x] + idx) == At(r.a, [to] + idx) && At(l2.b, [x] + idx) == At(r.b, [to] + idx)
    {
      CatTwoSecond(l1.a, l2.a, x, to, idx);
      CatTwoSecond(l1.b, l2.b, x, to, idx);
    }
  }

  lemma Tails(l1: Lora, l2: Lora, r: Lora)
    requires Joins(l1, l2, r)
    ensures ShapeOf(l1)[1..] == ShapeOf(l2)[1..] == ShapeOf(r)[1..]
    ensures ShapeOf(l1)[0] == l1.b.shape[0] && ShapeOf(l2)[0] == l2.b.shape[0]
    ensures ShapeOf(r) == [l1.b.shape[0] + l2.b.shape[0]] + ShapeOf(r)[1..]
    ensures Last(l1.b.shape) == Last(l2.b.shape) == Last(r.b.shape)
  {
    ShapeTail(l1);
    ShapeTail(l2);
    ShapeTail(r);
  }

  lemma FirstDot(l1: Lora, l2: Lora, r: Lora, x: nat, idx: Index)
    requires Joins(l1, l2, r) && x < l1.b.shape[0] && InRange(ShapeOf(r)[1..], idx)
    ensures At(Dense(l1), [x] + idx) == Dot(r, [x] + idx, Last(r.b.shape))
  {
    Tails(l1, l2, r);
    ShapeTail(l1);
    InRangeCons(l1.b.shape[0], ShapeOf(l1)[1..], x, idx);
    FirstBlocksSame(l1, l2, r, x);
    BlockDots(l1, x, r, x, idx, Last(r.b.shape));
  }

  lemma SecondDot(l1: Lora, l2: Lora, r: Lora, x: nat, to: nat, idx: Index)
    requires Joins(l1, l2, r) && x < l2.b.shape[0] && to == l1.b.shape[0] + x && InRange(ShapeOf(r)[1..], idx)
    ensures At(Dense(l2), [x] + idx) == Dot(r, [to] + idx, Last(r.b.shape))
  {
    Tails(l1, l2, r);
    ShapeTail(l2);
    InRangeCons(l2.b.shape[0], ShapeOf(l2)[1..], x, idx);
    SecondBlocksSame(l1, l2, r, x, to);
    BlockDots(l2, x, r, to, idx, Last(r.b.shape));
  }

  lemma CatBatchAt(l1: Lora, l2: Lora, r: Lora, t: Tensor, x: nat, idx: Index)
    requires Joins(l1, l2, r) && CatTwo(Dense(l1), Dense(l2)) == Some(t)
    requires x < l1.b.shape[0] + l2.b.shape[0] && InRange(ShapeOf(r)[1..], idx)
    ensures At(t, [x] + idx) == Dot(r, [x] + idx, Last(r.b.shape))
  {
    Tails(l1, l2, r);
    var m := l1.b.shape[0];
    if x < m {
      CatTwoFirst(Dense(l1), Dense(l2), x, idx);
      FirstDot(l1, l2, r, x, idx);
    } else {
      CatTwoSecond(Dense(l1), Dense(l2), x - m, x, idx);
      SecondDot(l1, l2, r, x - m, x, idx);
    }
  }

  /** When A is batched like B, concatenating both factors concatenates the products. */
  lemma CatBatchPair(l1: Lora, l2: Lora, r: Lora)
    requires Joins(l1, l2, r)
    ensures r.a.shape[0] == r.b.shape[0] && CatTwo(Dense(l1), Dense(l2)) == Some(Dense(r))
  {
    Tails(l1, l2, r);
    var t := CatTwo(Dense(l1), Dense(l2)).value;
    CatTwoValid(Dense(l1), Dense(l2));
    assert t.shape == ShapeOf(r);
    forall full | InRange(t.shape, full)
      ensures At(t, full) == Dot(r, full, Last(r.b.shape))
    {
      assert full == [full[0]] + full[1..];
      InRangeCons(t.shape[0], ShapeOf(r)[1..], full[0], full[1..]);
      CatBatchAt(l1, l2, r, t, full[0], full[1..]);
    }
    ProductIsDense(r, t);
  }

  lemma FrontDenses(ls: seq<Lora>)
    requires Adapters(ls) && ls != []
    ensures Adapters(Front(ls)) && Denses(ls) != [] && Front(Denses(ls)) == Denses(Front(ls))
    ensures Last(Denses(ls)) == Dense(Last(ls))
  {
    hide Dense;
  }

  /** torch.cat of pairs of three or more dimensions, all with A batched like B. */
  lemma {:induction false} CatBatches(ls: seq<Lora>)
    requires Adapters(ls) && LoraCat(ls).Some? && |ls[0].b.shape| > 2
    requires forall i :: 0 <= i < |ls| ==> ls[i].a.shape[0] == ls[i].b.shape[0]
    ensures CatRows(Denses(ls)) == Some(Dense(LoraCat(ls).value))
    ensures LoraCat(ls).value.a.shape[0] == LoraCat(ls).value.b.shape[0]
  {
    hide At, Dot;
    if |ls| > 1 {
      var ms := Front(ls);
      assert Front(AFactors(ls)) == AFactors(ms) && Front(BFactors(ls)) == BFactors(ms);
      FrontDenses(ls);
      CatTails(ms);
      CatBatches(ms);
      CatBatchPair(LoraCat(ms).value, Last(ls), LoraCat(ls).value);
    }
  }

  lemma CatTails(ls: seq<Lora>)
    requires Adapters(ls) && ls != [] && |ls[0].b.shape| > 2
    requires CatRows(AFactors(ls)).Some? && CatRows(BFactors(ls)).Some?
    ensures LoraCat(ls).Some?
    ensures |LoraCat(ls).value.b.shape| == |ls[0].b.shape|
  {
    CatTail(AFactors(ls));
    CatTail(BFactors(ls));
    var n := |ls[0].b.shape|;
    assert CatRows(AFactors(ls)).value.shape[1..][n - 3] == ls[0].a.shape[1..][n - 3];
    assert CatRows(BFactors(ls)).value.shape[1..][n - 2] == ls[0].b.shape[1..][n - 2];
  }
}

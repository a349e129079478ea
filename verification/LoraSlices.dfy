/**
 What slices, integers and lists select (the entries of LoraTorchTensor.__getitem__ in
 convert_lora_to_gguf.py), said with positions alone, on a tensor and on a pair.
 */
module LoraSlices {
  import opened Base
  import opened Tensors
  import opened Lora
  import opened LoraItems
  import opened LoraExpressions

  /** Position `p` of `n` is not in front of a bound; a negative bound counts from the end. */
  predicate Reaches(p: int, n: nat, bound: int) {
    if bound >= 0 then p >= bound else p - n >= bound
  }

  /** The position is one of the tensor's, not in front of the start and in front of the stop. */
  predicate Inside(p: int, n: nat, start: Option<int>, stop: Option<int>) {
    && 0 <= p < n
    && (start.Some? ==> Reaches(p, n, start.value))
    && (stop.Some? ==> !Reaches(p, n, stop.value))
  }

  /** From the first position inside, every `step`-th one as long as it is inside. */
  ghost predicate Chosen(ps: seq<nat>, n: nat, start: Option<int>, stop: Option<int>, step: nat) {
    && (forall y :: 0 <= y < |ps| ==> Inside(ps[y], n, start, stop))
    && (forall y :: 0 < y < |ps| ==> ps[y] == ps[y - 1] + step)
    && (forall p :: Inside(p, n, start, stop) ==> ps != [] && ps[0] <= p)
    && (ps != [] ==> !Inside(Last(ps) + step, n, start, stop))
  }

  lemma {:induction false} ChosenSame(
    ps: seq<nat>, qs: seq<nat>, n: nat, start: Option<int>, stop: Option<int>, step: nat, m: nat)
    requires Chosen(ps, n, start, stop, step) && Chosen(qs, n, start, stop, step) && m <= |ps| && m <= |qs|
    ensures ps[..m] == qs[..m]
  {
    hide Inside;
    if m > 0 {
      ChosenSame(ps, qs, n, start, stop, step, m - 1);
      assert ps[..m] == ps[..m - 1] + [ps[m - 1]] && qs[..m] == qs[..m - 1] + [qs[m - 1]];
      if m > 1 {
        assert ps[m - 2] == ps[..m - 1][m - 2] == qs[m - 2];
      } else {
        assert Inside(ps[0], n, start, stop) && Inside(qs[0], n, start, stop);
      }
    }
  }

  lemma MemberInside(ps: seq<nat>, y: nat, n: nat, start: Option<int>, stop: Option<int>, step: nat)
    requires Chosen(ps, n, start, stop, step)
    ensures y < |ps| ==> Inside(ps[y], n, start, stop)
  {
  }

  lemma NoLonger(ps: seq<nat>, qs: seq<nat>, n: nat, start: Option<int>, stop: Option<int>, step: nat)
    requires Chosen(ps, n, start, stop, step) && Chosen(qs, n, start, stop, step)
    requires |ps| <= |qs| && ps == qs[..|ps|]
    ensures ps == qs
  {
    hide Inside;
    assert |ps| < |qs| && ps != [] ==> qs[|ps|] == qs[|ps| - 1] + step == Last(ps) + step;
    MemberInside(qs, |ps|, n, start, stop, step);
  }

  /** There is one such choice. */
  lemma ChosenOnce(ps: seq<nat>, qs: seq<nat>, n: nat, start: Option<int>, stop: Option<int>, step: nat)
    requires Chosen(ps, n, start, stop, step) && Chosen(qs, n, start, stop, step)
    ensures ps == qs
  {
    hide Chosen;
    if |ps| <= |qs| {
      ChosenSame(ps, qs, n, start, stop, step, |ps|);
      NoLonger(ps, qs, n, start, stop, step);
    } else {
      ChosenSame(ps, qs, n, start, stop, step, |qs|);
      NoLonger(qs, ps, n, start, stop, step);
    }
  }

  // ----- what the tensor library resolves

  lemma {:induction false} StepsChosen(lo: nat, hi: nat, step: nat)
    requires step >= 1
    ensures var ps := Steps(lo, hi, step);
            && (ps == [] <==> lo >= hi)
            && (ps != [] ==> ps[0] == lo && Last(ps) + step >= hi)
            && (forall y :: 0 <= y < |ps| ==> lo <= ps[y] < hi)
            && (forall y :: 0 < y < |ps| ==> ps[y] == ps[y - 1] + step)
    decreases hi - lo
  {
    if lo < hi {
      StepsChosen(lo + step, hi, step);
    }
  }

  lemma InsideBounds(n: nat, start: Option<int>, stop: Option<int>, p: int)
    ensures var lo := if start.None? then 0 else Clamp(start.value, n);
            var hi := if stop.None? then n else Clamp(stop.value, n);
            Inside(p, n, start, stop) <==> lo <= p < hi
  {
  }

  lemma SliceResolves(n: nat, start: Option<int>, stop: Option<int>, step: nat) returns (ps: seq<nat>)
    requires step >= 1
    ensures Resolve(Slice(start, stop, step), n) == Some(Many(ps)) && Chosen(ps, n, start, stop, step)
  {
    hide Inside, Clamp, Steps;
    var lo := if start.None? then 0 else Clamp(start.value, n);
    var hi := if stop.None? then n else Clamp(stop.value, n);
    ps := Steps(lo, hi, step);
    StepsChosen(lo, hi, step);
    forall p
      ensures Inside(p, n, start, stop) <==> lo <= p < hi
    {
      InsideBounds(n, start, stop, p);
    }
  }

  // ----- one entry

  /** A slice takes the blocks at the chosen positions; a step of zero is an error. */
  lemma SliceBlocks(t: Tensor, start: Option<int>, stop: Option<int>, step: nat) returns (ps: seq<nat>)
    requires t.shape != []
    ensures IndexBy(t, [Slice(start, stop, step)]).Some? <==> step >= 1
    ensures step >= 1 ==>
              && Chosen(ps, t.shape[0], start, stop, step)
              && Blocks(t, ps, IndexBy(t, [Slice(start, stop, step)]).value)
  {
    hide Blocks, Chosen, IndexBy;
    IndexFirst(t, Slice(start, stop, step));
    if step >= 1 {
      ps := SliceResolves(t.shape[0], start, stop, step);
    } else {
      ps := [];
    }
  }

  /** An integer takes one block, a negative one from the end, and fails outside. */
  lemma IntegerBlock(t: Tensor, i: int)
    requires t.shape != []
    ensures IndexBy(t, [Integer(i)]).Some? <==> -(t.shape[0] as int) <= i < t.shape[0]
    ensures var r := IndexBy(t, [Integer(i)]);
            && (0 <= i < t.shape[0] ==> r.Some? && IsBlock(t, i, r.value))
            && (-(t.shape[0] as int) <= i < 0 ==> r.Some? && IsBlock(t, i + t.shape[0], r.value))
  {
    hide IsBlock, IndexBy;
    IndexFirst(t, Integer(i));
  }

  /** A list takes its blocks in order. */
  lemma ListBlocks(t: Tensor, list: seq<int>, ps: seq<nat>)
    requires t.shape != [] && |ps| == |list|
    requires forall y :: 0 <= y < |ps| ==> ps[y] < t.shape[0] && (list[y] == ps[y] || list[y] + t.shape[0] == ps[y])
    ensures IndexBy(t, [Positions(list)]).Some? && Blocks(t, ps, IndexBy(t, [Positions(list)]).value)
  {
    hide Blocks, IndexBy;
    IndexFirst(t, Positions(list));
    assert Resolve(Positions(list), t.shape[0]).value.positions == ps;
  }

  /** The result consists of `count` blocks of `t` that follow each other. */
  ghost predicate IsRun(t: Tensor, from: nat, count: nat, result: Option<Tensor>) {
    && result.Some?
    && var r := result.value;
    && Valid(r) && t.shape != [] && r.shape == [count] + t.shape[1..]
    && forall y: nat, idx: Index {:trigger At(r, [y] + idx)} ::
         y < count && InRange(t.shape[1..], idx) ==> At(r, [y] + idx) == At(t, [from + y] + idx)
  }

  lemma {:induction false} ChosenRun(ps: seq<nat>, n: nat, start: Option<int>, stop: Option<int>, from: nat, to: nat)
    requires Chosen(ps, n, start, stop, 1) && from <= to
    requires forall p :: Inside(p, n, start, stop) <==> from <= p < to
    ensures |ps| == to - from && forall y :: 0 <= y < |ps| ==> ps[y] == from + y
  {
    hide Inside;
    if from < to {
      assert Inside(from, n, start, stop);
      ChosenCounts(ps, n, start, stop, |ps|);
    }
  }

  lemma {:induction false} ChosenCounts(ps: seq<nat>, n: nat, start: Option<int>, stop: Option<int>, m: nat)
    requires Chosen(ps, n, start, stop, 1) && m <= |ps|
    ensures forall y :: 0 <= y < m ==> ps[y] == ps[0] + y
  {
    hide Inside;
    if m > 0 {
      ChosenCounts(ps, n, start, stop, m - 1);
      assert m > 1 ==> ps[m - 1] == ps[m - 2] + 1;
    }
  }

  lemma SliceRun(t: Tensor, start: Option<int>, stop: Option<int>, from: nat, to: nat)
    requires t.shape != [] && from <= to && forall p :: Inside(p, t.shape[0], start, stop) <==> from <= p < to
    ensures IsRun(t, from, to - from, IndexBy(t, [Slice(start, stop, 1)]))
  {
    hide Inside, Chosen, IndexBy;
    var ps := SliceBlocks(t, start, stop, 1);
    ChosenRun(ps, t.shape[0], start, stop, from, to);
  }

  lemma InsideOne(n: nat, k: int, p: int)
    requires k >= 0
    ensures var m := if k <= n then k else n as int;
            && (Inside(p, n, Some(k), None) <==> m <= p < n) && (Inside(p, n, None, Some(k)) <==> 0 <= p < m)
            && (k > 0 ==> (Inside(p, n, Some(-k), None) <==> n - m <= p < n) && (Inside(p, n, None, Some(-k)) <==> 0 <= p < n - m))
  {
  }

  /** t[k:] leaves out the first k blocks and t[:k] keeps them; with -k the blocks are counted from the end. */
  lemma OneBound(t: Tensor, k: int)
    requires t.shape != [] && k >= 0
    ensures var n := t.shape[0];
            var m: nat := if k <= n then k else n;
            && IsRun(t, m, n - m, IndexBy(t, [Slice(Some(k), None, 1)]))
            && IsRun(t, 0, m, IndexBy(t, [Slice(None, Some(k), 1)]))
            && (k > 0 ==> IsRun(t, n - m, m, IndexBy(t, [Slice(Some(-k), None, 1)])))
            && (k > 0 ==> IsRun(t, 0, n - m, IndexBy(t, [Slice(None, Some(-k), 1)])))
  {
    hide Inside, IsRun, IndexBy;
    var n := t.shape[0];
    var m: nat := if k <= n then k else n;
    forall p
      ensures (Inside(p, n, Some(k), None) <==> m <= p < n) && (Inside(p, n, None, Some(k)) <==> 0 <= p < m)
    {
      InsideOne(n, k, p);
    }
    SliceRun(t, Some(k), None, m, n);
    SliceRun(t, None, Some(k), 0, m);
    if k > 0 {
      var b := -k;
      forall p
        ensures (Inside(p, n, Some(b), None) <==> n - m <= p < n) && (Inside(p, n, None, Some(b)) <==> 0 <= p < n - m)
      {
        InsideOne(n, k, p);
      }
      SliceRun(t, Some(b), None, n - m, n);
      SliceRun(t, None, Some(b), 0, n - m);
    }
  }

  /** The front of a tensor and what is behind it, put together, are the tensor: for every k. */
  lemma CutAndCat(t: Tensor, k: int)
    requires Valid(t) && t.shape != []
    ensures var front, back := IndexBy(t, [Slice(None, Some(k), 1)]), IndexBy(t, [Slice(Some(k), None, 1)]);
            front.Some? && back.Some? && CatTwo(front.value, back.value) == Some(t)
  {
    hide IsRun, IndexBy, CatTwo;
    OneBound(t, if k < 0 then -k else k);
    var n, a := t.shape[0], if k < 0 then -k else k;
    var m: nat := if a <= n then a else n;
    var c := if k < 0 then n - m else m;
    var front, back := IndexBy(t, [Slice(None, Some(k), 1)]), IndexBy(t, [Slice(Some(k), None, 1)]);
    assert -(-k) == k;
    RunsCat(t, c, front, back);
  }

  lemma RunsCat(t: Tensor, c: nat, front: Option<Tensor>, back: Option<Tensor>)
    requires Valid(t) && t.shape != [] && c <= t.shape[0]
    requires IsRun(t, 0, c, front) && IsRun(t, c, t.shape[0] - c, back)
    ensures front.Some? && back.Some? && CatTwo(front.value, back.value) == Some(t)
  {
    var f, b := front.value, back.value;
    var r := CatTwo(f, b).value;
    CatTwoValid(f, b);
    assert t.shape == [t.shape[0]] + t.shape[1..];
    forall idx | InRange(t.shape, idx)
      ensures At(r, idx) == At(t, idx)
    {
      RunsCatAt(t, c, front, back, idx);
    }
    Extensional(r, t);
  }

  lemma RunsCatAt(t: Tensor, c: nat, front: Option<Tensor>, back: Option<Tensor>, idx: Index)
    requires Valid(t) && t.shape != [] && c <= t.shape[0] && InRange(t.shape, idx)
    requires IsRun(t, 0, c, front) && IsRun(t, c, t.shape[0] - c, back)
    ensures front.Some? && back.Some? && CatTwo(front.value, back.value).Some?
    ensures At(CatTwo(front.value, back.value).value, idx) == At(t, idx)
  {
    hide CatTwo, Valid;
    var f, b := front.value, back.value;
    var x, tail := idx[0], idx[1..];
    assert idx == [x] + tail && InRange(t.shape[1..], tail);
    RunShapes(t, c, front, back);
    if x < c {
      CatTwoFirst(f, b, x, tail);
      assert 0 + x == x;
    } else {
      CatTwoSecond(f, b, x - c, x, tail);
    }
  }

  lemma RunShapes(t: Tensor, c: nat, front: Option<Tensor>, back: Option<Tensor>)
    requires Valid(t) && t.shape != [] && c <= t.shape[0]
    requires IsRun(t, 0, c, front) && IsRun(t, c, t.shape[0] - c, back)
    ensures Valid(front.value) && Valid(back.value) && CatTwo(front.value, back.value).Some?
    ensures front.value.shape[0] == c && back.value.shape[0] == t.shape[0] - c
  {
    hide At, InRange;
  }

  // ----- tuples of slices

  predicate Slices(items: seq<Item>) {
    forall d :: 0 <= d < |items| ==> items[d].Slice? && items[d].step >= 1
  }

  /** What the entries choose, dimension by dimension. */
  ghost predicate AllChosen(items: seq<Item>, shape: Shape, ps: seq<seq<nat>>) {
    && |items| == |shape| == |ps|
    && forall d :: 0 <= d < |items| ==>
         items[d].Slice? && Chosen(ps[d], shape[d], items[d].start, items[d].stop, items[d].step)
  }

  function Manys(ps: seq<seq<nat>>): seq<Sel> {
    seq(|ps|, d requires 0 <= d < |ps| => Many(ps[d]))
  }

  function Sizes(ps: seq<seq<nat>>): Shape {
    seq(|ps|, d requires 0 <= d < |ps| => |ps[d]|)
  }

  /** The element that an index of the result stands for. */
  function Picked(ps: seq<seq<nat>>, idx: Index): Index
    requires InRange(Sizes(ps), idx)
  {
    seq(|ps|, d requires 0 <= d < |ps| => ps[d][idx[d]])
  }

  lemma NothingResolves(shape: Shape)
    requires shape == []
    ensures ResolveAll([], shape) == Some([])
  {
  }

  lemma {:induction false} SlicesResolve(items: seq<Item>, shape: Shape) returns (ps: seq<seq<nat>>)
    requires Slices(items) && |items| == |shape|
    ensures AllChosen(items, shape, ps) && ResolveAll(items, shape) == Some(Manys(ps))
  {
    hide Chosen, Resolve, ResolveAll;
    if items == [] {
      ps := [];
      assert Manys(ps) == [];
      NothingResolves(shape);
    } else {
      var item := Last(items);
      var front := SlicesResolve(Front(items), Front(shape));
      var p := SliceResolves(Last(shape), item.start, item.stop, item.step);
      ps := front + [p];
      assert items == Front(items) + [item] && shape == Front(shape) + [Last(shape)];
      assert Manys(ps) == Manys(front) + [Many(p)];
      ResolveSnoc(Front(items), Manys(front), item, Many(p), Front(shape), Last(shape));
      ChosenSnoc(Front(items), Front(shape), front, item, Last(shape), p);
    }
  }

  lemma ChosenSnoc(items: seq<Item>, shape: Shape, ps: seq<seq<nat>>, item: Item, n: nat, p: seq<nat>)
    requires AllChosen(items, shape, ps) && item.Slice? && Chosen(p, n, item.start, item.stop, item.step)
    ensures AllChosen(items + [item], shape + [n], ps + [p])
  {
    hide Chosen;
  }

  lemma {:induction false} ManysExpand(ps: seq<seq<nat>>, idx: Index)
    ensures SelShape(Manys(ps)) == Sizes(ps)
    ensures InRange(Sizes(ps), idx) ==> Expand(Manys(ps), idx) == Picked(ps, idx)
  {
    if ps != [] {
      var front, p := Front(ps), Last(ps);
      assert ps == front + [p];
      assert Manys(ps) == Manys(front) + [Many(p)] && Sizes(ps) == Sizes(front) + [|p|];
      SelShapeSnoc(Manys(front), p);
      ManysExpand(front, []);
      if InRange(Sizes(ps), idx) {
        var j := Last(idx);
        assert idx == Front(idx) + [j];
        InRangeSnoc(Sizes(front), |p|, Front(idx), j);
        ManysExpand(front, Front(idx));
        ExpandSnoc(Manys(front), p, Front(idx), j);
        assert Picked(ps, idx) == Picked(front, Front(idx)) + [p[j]];
      }
    }
  }

  /** A tuple of slices takes from every dimension the chosen positions. */
  lemma TupleOfSlices(t: Tensor, items: Tuple) returns (ps: seq<seq<nat>>)
    requires Slices(items) && |items| == |t.shape|
    ensures AllChosen(items, t.shape, ps) && IndexBy(t, items).Some?
    ensures var r := IndexBy(t, items).value;
            && Valid(r) && r.shape == Sizes(ps)
            && forall idx :: InRange(r.shape, idx) ==> At(r, idx) == At(t, Picked(ps, idx))
  {
    hide AllChosen, At, Expand, InRange, ResolveAll, SelShape;
    assert Padded(items, |t.shape|) == items;
    ps := SlicesResolve(items, t.shape);
    var r := IndexBy(t, items).value;
    ManysExpand(ps, []);
    forall idx | InRange(r.shape, idx)
      ensures At(r, idx) == At(t, Picked(ps, idx))
    {
      ManysExpand(ps, idx);
    }
  }

  // ----- the pair

  /** A slice that leaves out the only block of A, but not all blocks of B. */
  ghost predicate DropsA(l: Lora, start: Option<int>, stop: Option<int>)
    requires l.a.shape != [] && l.b.shape != []
  {
    && |l.b.shape| > 2 && l.a.shape[0] == 1
    && !Inside(0, 1, start, stop) && exists p :: Inside(p, l.b.shape[0], start, stop)
  }

  lemma DropsIsLoses(l: Lora, start: Option<int>, stop: Option<int>, step: nat)
    requires l.a.shape != [] && l.b.shape != [] && step >= 1
    ensures DropsA(l, start, stop) <==> LosesA(l, Slice(start, stop, step))
  {
    hide Inside, Resolve;
    var ps := SliceResolves(1, start, stop, step);
    var qs := SliceResolves(l.b.shape[0], start, stop, step);
    OnlyBlock(ps, start, stop, step);
    SomeBlock(qs, l.b.shape[0], start, stop, step);
    assert ps == [] <==> Many(ps) == Many([]);
    assert qs == [] <==> Many(qs) == Many([]);
  }

  lemma SomeBlock(ps: seq<nat>, n: nat, start: Option<int>, stop: Option<int>, step: nat)
    requires Chosen(ps, n, start, stop, step)
    ensures ps != [] <==> exists p :: Inside(p, n, start, stop)
  {
    if ps != [] {
      assert Inside(ps[0], n, start, stop);
    } else {
      forall p
        ensures !Inside(p, n, start, stop)
      {
      }
    }
  }

  lemma OnlyBlock(ps: seq<nat>, start: Option<int>, stop: Option<int>, step: nat)
    requires Chosen(ps, 1, start, stop, step)
    ensures ps == [] <==> !Inside(0, 1, start, stop)
  {
    if ps != [] {
      assert Inside(ps[0], 1, start, stop);
    }
  }

  /** A slice of a pair stands for the blocks at the chosen positions of the tensor that the pair stands for. */
  lemma PairSlice(l: Lora, start: Option<int>, stop: Option<int>, step: nat) returns (ps: seq<nat>)
    requires Adapter(l) && Broadcasts(l) && LoraItem(l, Slice(start, stop, step)).Some?
    requires !DropsA(l, start, stop)
    ensures Chosen(ps, l.b.shape[0], start, stop, step)
    ensures var r := LoraItem(l, Slice(start, stop, step)).value; Adapter(r) && Blocks(Dense(l), ps, Dense(r))
  {
    hide Blocks, Chosen, DropsA, IndexBy, LosesA;
    var qs := SliceBlocks(l.b, start, stop, step);
    ps := SliceBlocks(Dense(l), start, stop, step);
    DropsIsLoses(l, start, stop, step);
    ItemSimulates(l, Slice(start, stop, step));
  }

  /** Every slice of a pair with a step is a pair: of both factors, or of B alone where A is a matrix. */
  lemma SliceTaken(l: Lora, start: Option<int>, stop: Option<int>, step: nat)
    requires Adapter(l) && step >= 1
    ensures var item := Slice(start, stop, step);
            && IndexBy(l.a, [item]).Some? && IndexBy(l.b, [item]).Some?
            && var r := Lora(if |l.b.shape| > 2 then IndexBy(l.a, [item]).value else l.a, IndexBy(l.b, [item]).value);
               LoraItem(l, item) == Some(r) && Adapter(r)
  {
    hide At, Chosen, IndexBy, InRange;
    var ps := SliceBlocks(l.a, start, stop, step);
    var qs := SliceBlocks(l.b, start, stop, step);
    var a, b := IndexBy(l.a, [Slice(start, stop, step)]).value, IndexBy(l.b, [Slice(start, stop, step)]).value;
    SameTail(l.a.shape, a.shape, |ps|);
    SameTail(l.b.shape, b.shape, |qs|);
  }

  lemma SameTail(shape: Shape, other: Shape, n: nat)
    requires |shape| >= 2 && other == [n] + shape[1..]
    ensures |other| == |shape| && Last(other) == Last(shape)
    ensures |shape| > 2 ==> other[|other| - 2] == shape[|shape| - 2]
  {
  }

  /** The front of a pair and what is behind it, put together, are the pair: for every k. */
  lemma PairCutAndCat(l: Lora, k: int)
    requires Adapter(l)
    ensures var front, back := LoraItem(l, Slice(None, Some(k), 1)), LoraItem(l, Slice(Some(k), None, 1));
            && front.Some? && back.Some? && Adapter(front.value) && Adapter(back.value)
            && LoraCat([front.value, back.value]) == Some(l)
  {
    hide CatTwo, IndexBy, LoraCat, LoraItem;
    SliceTaken(l, None, Some(k), 1);
    SliceTaken(l, Some(k), None, 1);
    var f, b := LoraItem(l, Slice(None, Some(k), 1)).value, LoraItem(l, Slice(Some(k), None, 1)).value;
    CutAndCat(l.a, k);
    CutAndCat(l.b, k);
    CatOfTwo(l, f, b);
  }

  lemma RowsOfTwo(f: Tensor, b: Tensor)
    ensures CatRows([f, b]) == CatTwo(f, b)
  {
    assert Front([f, b]) == [f] && CatRows([f]) == Some(f);
  }

  lemma CatOfTwo(l: Lora, f: Lora, b: Lora)
    requires Adapter(l) && Adapter(f) && Adapter(b) && CatTwo(f.b, b.b) == Some(l.b)
    requires if |l.b.shape| > 2 then CatTwo(f.a, b.a) == Some(l.a) else f.a == b.a == l.a
    ensures LoraCat([f, b]) == Some(l)
  {
    hide CatRows;
    var ls := [f, b];
    assert AFactors(ls) == [f.a, b.a] && BFactors(ls) == [f.b, b.b];
    RowsOfTwo(f.a, b.a);
    RowsOfTwo(f.b, b.b);
    CatRank(f.b, b.b, l.b);
  }

  lemma CatRank(t: Tensor, u: Tensor, r: Tensor)
    requires CatTwo(t, u) == Some(r)
    ensures |t.shape| == |r.shape|
  {
  }
}

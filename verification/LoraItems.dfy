/** Indexing a pair by one entry, and by a tuple with an ellipsis. */
module LoraItems {
  import opened Base
  import opened Tensors
  import opened Lora

  // ----- an entry for the first dimension alone

  function Wholes(shape: Shape): seq<Sel> {
    seq(|shape|, k requires 0 <= k < |shape| => Full(shape[k]))
  }

  lemma {:induction false} StepsFrom(k: nat, n: nat)
    requires k <= n
    ensures Steps(k, n, 1) == seq(n - k, i requires 0 <= i < n - k => k + i)
    decreases n - k
  {
    if k < n {
      StepsFrom(k + 1, n);
    }
  }

  lemma AllIsFull(n: nat)
    ensures Resolve(ALL, n) == Some(Full(n))
  {
    StepsFrom(0, n);
    assert Steps(0, n, 1) == Full(n).positions;
  }

  lemma {:induction false} ResolvePrefix(items: seq<Item>, sels: seq<Sel>, shape: Shape, tail: Shape)
    requires |items| == |shape| && ResolveAll(items, shape) == Some(sels)
    ensures ResolveAll(items + Alls(|tail|), shape + tail) == Some(sels + Wholes(tail))
  {
    hide Full, Resolve, ResolveAll;
    if tail == [] {
      assert items + Alls(0) == items && shape + tail == shape && sels + Wholes(tail) == sels;
    } else {
      var front, m := Front(tail), Last(tail);
      ResolvePrefix(items, sels, shape, front);
      AllIsFull(m);
      Regrouped(items, sels, shape, front, m);
      ResolveSnoc(items + Alls(|front|), sels + Wholes(front), ALL, Full(m), shape + front, m);
      assert tail == front + [m];
    }
  }

  lemma Regrouped(items: seq<Item>, sels: seq<Sel>, shape: Shape, tail: Shape, m: nat)
    ensures items + Alls(|tail + [m]|) == items + Alls(|tail|) + [ALL]
    ensures shape + (tail + [m]) == shape + tail + [m]
    ensures sels + Wholes(tail + [m]) == sels + Wholes(tail) + [Full(m)]
  {
    assert Wholes(tail + [m]) == Wholes(tail) + [Full(m)];
  }

  lemma ResolveOne(item: Item, n: nat)
    requires Resolve(item, n).Some?
    ensures ResolveAll([item], [n]) == Some([Resolve(item, n).value])
  {
    assert [item] == [] + [item] && [n] == [] + [n] && [Resolve(item, n).value] == [] + [Resolve(item, n).value];
    ResolveSnoc([], [], item, Resolve(item, n).value, [], n);
  }

  lemma ResolveSnoc(items: seq<Item>, sels: seq<Sel>, item: Item, sel: Sel, shape: Shape, n: nat)
    requires |items| == |shape| && ResolveAll(items, shape) == Some(sels) && Resolve(item, n) == Some(sel)
    ensures ResolveAll(items + [item], shape + [n]) == Some(sels + [sel])
  {
    FrontLast(items, item);
    FrontLast(shape, n);
  }

  lemma {:induction false} ResolvesFirst(items: seq<Item>, shape: Shape)
    requires |items| == |shape| > 0 && ResolveAll(items, shape).Some?
    ensures Resolve(items[0], shape[0]).Some?
  {
    if |items| > 1 {
      ResolvesFirst(Front(items), Front(shape));
    }
  }

  lemma {:induction false} PrefixShape(sels: seq<Sel>, tail: Shape)
    ensures SelShape(sels + Wholes(tail)) == SelShape(sels) + tail
  {
    if tail == [] {
      assert sels + Wholes(tail) == sels;
    } else {
      assert sels + Wholes(tail) == (sels + Wholes(Front(tail))) + [Full(Last(tail))];
      PrefixShape(sels, Front(tail));
      SelShapeSnoc(sels + Wholes(Front(tail)), Full(Last(tail)).positions);
    }
  }

  lemma {:induction false} ExpandPrefix(sels: seq<Sel>, tail: Shape, head: Index, idx: Index)
    requires InRange(SelShape(sels), head) && InRange(tail, idx)
    ensures InRange(SelShape(sels + Wholes(tail)), head + idx)
    ensures Expand(sels + Wholes(tail), head + idx) == Expand(sels, head) + idx
  {
    if tail == [] {
      assert sels + Wholes(tail) == sels && head + idx == head;
      assert Expand(sels, head) + idx == Expand(sels, head);
    } else {
      var m, n, i, j := Front(tail), Last(tail), Front(idx), Last(idx);
      assert tail == m + [n] && idx == i + [j];
      InRangeSnoc(m, n, i, j);
      ExpandPrefix(sels, m, head, i);
      ExpandPrefixStep(sels, m, n, head, i, j);
    }
  }

  lemma ExpandPrefixStep(sels: seq<Sel>, tail: Shape, n: nat, head: Index, idx: Index, j: nat)
    requires InRange(SelShape(sels), head) && j < n
    requires InRange(SelShape(sels + Wholes(tail)), head + idx)
    requires Expand(sels + Wholes(tail), head + idx) == Expand(sels, head) + idx
    ensures InRange(SelShape(sels + Wholes(tail + [n])), head + (idx + [j]))
    ensures Expand(sels + Wholes(tail + [n]), head + (idx + [j])) == Expand(sels, head) + (idx + [j])
  {
    hide Expand, InRange, SelShape;
    assert sels + Wholes(tail + [n]) == (sels + Wholes(tail)) + [Full(n)];
    assert head + (idx + [j]) == head + idx + [j];
    ExpandSnoc(sels + Wholes(tail), Full(n).positions, head + idx, j);
  }

  /** `r` is block `x` of `t`. */
  ghost predicate IsBlock(t: Tensor, x: nat, r: Tensor) {
    && Valid(r) && t.shape != [] && r.shape == t.shape[1..]
    && forall idx: Index :: InRange(r.shape, idx) ==> At(r, idx) == At(t, [x] + idx)
  }

  /** `r` consists of the blocks of `t` at the given positions of the first dimension. */
  ghost predicate Blocks(t: Tensor, positions: seq<nat>, r: Tensor) {
    && Valid(r) && t.shape != [] && r.shape == [|positions|] + t.shape[1..]
    && forall y: nat, idx: Index {:trigger At(r, [y] + idx)} ::
         y < |positions| && InRange(t.shape[1..], idx) ==> At(r, [y] + idx) == At(t, [positions[y]] + idx)
  }

  lemma FirstBlock(t: Tensor, i: nat, r: Tensor)
    requires t.shape != [] && IsIndexed(t, [One(i)] + Wholes(t.shape[1..]), r)
    ensures IsBlock(t, i, r)
  {
    PrefixShape([One(i)], t.shape[1..]);
    assert SelShape([One(i)]) == [] && Expand([One(i)], []) == [i];
    forall idx: Index | InRange(t.shape[1..], idx)
      ensures At(r, idx) == At(t, [i] + idx)
    {
      ExpandPrefix([One(i)], t.shape[1..], [], idx);
      assert [] + idx == idx;
    }
  }

  lemma FirstBlocks(t: Tensor, p: seq<nat>, r: Tensor)
    requires t.shape != [] && IsIndexed(t, [Many(p)] + Wholes(t.shape[1..]), r)
    ensures Blocks(t, p, r)
  {
    PrefixShape([Many(p)], t.shape[1..]);
    assert SelShape([Many(p)]) == [|p|];
    forall y: nat, idx: Index | y < |p| && InRange(t.shape[1..], idx)
      ensures At(r, [y] + idx) == At(t, [p[y]] + idx)
    {
      assert Expand([Many(p)], [y]) == [p[y]];
      ExpandPrefix([Many(p)], t.shape[1..], [y], idx);
    }
  }

  /** What one entry does to a dense tensor. */
  lemma IndexFirst(t: Tensor, item: Item)
    requires t.shape != []
    ensures IndexBy(t, [item]).Some? <==> Resolve(item, t.shape[0]).Some?
    ensures IndexBy(t, [item]).Some? ==>
              match Resolve(item, t.shape[0]).value
              case One(i) => i < t.shape[0] && IsBlock(t, i, IndexBy(t, [item]).value)
              case Many(p) => (forall y :: 0 <= y < |p| ==> p[y] < t.shape[0]) && Blocks(t, p, IndexBy(t, [item]).value)
  {
    var n, tail := t.shape[0], t.shape[1..];
    assert t.shape == [n] + tail && Padded([item], |t.shape|) == [item] + Alls(|tail|);
    if Resolve(item, n).Some? {
      ResolveOne(item, n);
      ResolvePrefix([item], [Resolve(item, n).value], [n], tail);
      var sel := Resolve(item, n).value;
      match sel {
        case One(i) => FirstBlock(t, i, Indexed(t, [sel] + Wholes(tail)));
        case Many(p) => FirstBlocks(t, p, Indexed(t, [sel] + Wholes(tail)));
      }
    } else if ResolveAll(Padded([item], |t.shape|), t.shape).Some? {
      ResolvesFirst(Padded([item], |t.shape|), t.shape);
    }
  }

  // ----- the pair

  /** Indexing by one entry that is no tuple. */
  ghost function LoraItem(l: Lora, item: Item): Option<Lora>
    requires Adapter(l)
  {
    if item.Positions? then None
    else if |l.b.shape| > 2 then
      match (IndexBy(l.a, [item]), IndexBy(l.b, [item]))
      case (Some(a), Some(b)) => Make(a, b)
      case _ => None
    else if item.Integer? then None
    else match IndexBy(l.b, [item])
      case None => None
      case Some(b) => Make(l.a, b)
  }

  lemma BlocksAt(t: Tensor, positions: seq<nat>, r: Tensor, y: nat, idx: Index)
    requires Blocks(t, positions, r) && y < |positions| && positions[y] < t.shape[0]
    ensures At(r, [y] + idx) == At(t, [positions[y]] + idx)
  {
    assert t.shape == [t.shape[0]] + t.shape[1..];
    InRangeCons(|positions|, t.shape[1..], y, idx);
    InRangeCons(t.shape[0], t.shape[1..], positions[y], idx);
  }

  lemma BlockIsAt(t: Tensor, x: nat, r: Tensor, idx: Index)
    requires IsBlock(t, x, r) && x < t.shape[0]
    ensures At(r, idx) == At(t, [x] + idx)
  {
    assert t.shape == [t.shape[0]] + t.shape[1..];
    InRangeCons(t.shape[0], t.shape[1..], x, idx);
  }

  lemma BlockInFront(x: nat, idx: Index, k: nat)
    requires idx != []
    ensures Front([x] + idx) + [k] == [x] + (Front(idx) + [k])
  {
  }

  /** The element of A for block `x`: A has one block, or as many as B. */
  lemma LeadOfBlock(shape: Shape, x: nat, idx: Index, k: nat)
    requires 2 < |shape| == |idx| + 1
    ensures LeadOf(shape, [x] + idx) + [k] + [Last(idx)]
            == [if shape[0] == 1 then 0 else x] + (LeadOf(shape[1..], idx) + [k] + [Last(idx)])
  {
    assert LeadOf(shape, [x] + idx) == [if shape[0] == 1 then 0 else x] + LeadOf(shape[1..], idx);
  }

  lemma ShapeTail(l: Lora)
    requires |l.a.shape| == |l.b.shape| > 2
    ensures ShapeOf(l)[1..] == Front(l.b.shape[1..]) + [Last(l.a.shape[1..])]
    ensures ShapeOf(l) == [l.b.shape[0]] + ShapeOf(l)[1..]
    ensures Last(l.b.shape) == Last(l.b.shape[1..]) && Last(l.a.shape) == Last(l.a.shape[1..])
    ensures l.a.shape[1..][|l.a.shape| - 3] == l.a.shape[|l.a.shape| - 2]
  {
  }

  /** An integer takes one block of both factors. */
  lemma IntegerSimulates(l: Lora, i: nat, ia: nat, r: Lora, t: Tensor)
    requires Adapter(l) && |l.b.shape| > 2 && ia == (if l.a.shape[0] == 1 then 0 else i)
    requires i < l.b.shape[0] && ia < l.a.shape[0]
    requires IsBlock(l.a, ia, r.a) && IsBlock(l.b, i, r.b) && IsBlock(Dense(l), i, t)
    ensures Adapter(r) && t == Dense(r)
  {
    ShapeTail(l);
    forall idx | InRange(t.shape, idx)
      ensures At(t, idx) == Dot(r, idx, Last(r.b.shape))
    {
      InRangeCons(l.b.shape[0], t.shape, i, idx);
      forall k | 0 <= k < Last(r.b.shape)
        ensures SameFactors(l, [i] + idx, r, idx, k)
      {
        BlockInFront(i, idx, k);
        BlockIsAt(l.b, i, r.b, Front(idx) + [k]);
        LeadOfBlock(l.a.shape, i, idx, k);
        BlockIsAt(l.a, ia, r.a, LeadOf(r.a.shape, idx) + [k] + [Last(idx)]);
      }
      DotSame(l, [i] + idx, r, idx, Last(r.b.shape));
    }
    ProductIsDense(r, t);
  }

  /** The positions of A are those of B, or A's one block is kept. */
  ghost predicate SliceSetting(l: Lora, pa: seq<nat>, pb: seq<nat>, r: Lora) {
    && Adapter(l) && |l.b.shape| > 2 && Blocks(l.a, pa, r.a) && Blocks(l.b, pb, r.b)
    && (forall y :: 0 <= y < |pa| ==> pa[y] < l.a.shape[0])
    && (forall y :: 0 <= y < |pb| ==> pb[y] < l.b.shape[0])
    && ((l.a.shape[0] == l.b.shape[0] && pa == pb) || (l.a.shape[0] == 1 && (|pa| == 1 || pb == [])))
  }

  /** A slice keeps the same blocks of the product. */
  lemma SliceSimulates(l: Lora, pa: seq<nat>, pb: seq<nat>, r: Lora, t: Tensor)
    requires SliceSetting(l, pa, pb, r) && Blocks(Dense(l), pb, t)
    ensures Adapter(r) && t == Dense(r)
  {
    hide At, Dense, Dot, Blocks;
    SliceShapes(l, pa, pb, r, t);
    forall full | InRange(t.shape, full)
      ensures At(t, full) == Dot(r, full, Last(r.b.shape))
    {
      SliceElement(l, pa, pb, r, t, full);
    }
    ProductIsDense(r, t);
  }

  lemma SliceShapes(l: Lora, pa: seq<nat>, pb: seq<nat>, r: Lora, t: Tensor)
    requires SliceSetting(l, pa, pb, r) && Blocks(Dense(l), pb, t)
    ensures Adapter(r) && Valid(t) && t.shape == ShapeOf(r)
  {
    hide At, Dense, Dot;
    ShapeTail(l);
    ShapeTail(r);
  }

  lemma SliceElement(l: Lora, pa: seq<nat>, pb: seq<nat>, r: Lora, t: Tensor, full: Index)
    requires SliceSetting(l, pa, pb, r) && Blocks(Dense(l), pb, t) && Adapter(r) && InRange(t.shape, full)
    ensures |full| == |r.a.shape| && At(t, full) == Dot(r, full, Last(r.b.shape))
  {
    hide At, Dense, Dot;
    ShapeTail(l);
    ShapeTail(r);
    var y, idx := full[0], full[1..];
    assert full == [y] + idx;
    InRangeCons(|pb|, ShapeOf(l)[1..], y, idx);
    InRangeCons(l.b.shape[0], ShapeOf(l)[1..], pb[y], idx);
    SliceDot(l, pa, pb, r, y, idx);
  }

  lemma SliceDot(l: Lora, pa: seq<nat>, pb: seq<nat>, r: Lora, y: nat, idx: Index)
    requires SliceSetting(l, pa, pb, r) && y < |pb| && |idx| + 1 == |l.b.shape|
    ensures Dot(l, [pb[y]] + idx, Last(l.b.shape)) == Dot(r, [y] + idx, Last(l.b.shape))
  {
    forall k | 0 <= k < Last(l.b.shape)
      ensures SameFactors(l, [pb[y]] + idx, r, [y] + idx, k)
    {
      BlockInFront(pb[y], idx, k);
      BlockInFront(y, idx, k);
      BlocksAt(l.b, pb, r.b, y, Front(idx) + [k]);
      SliceColumn(l, pa, pb, r, y, idx, k);
    }
    DotSame(l, [pb[y]] + idx, r, [y] + idx, Last(l.b.shape));
  }

  lemma SliceColumn(l: Lora, pa: seq<nat>, pb: seq<nat>, r: Lora, y: nat, idx: Index, k: nat)
    requires SliceSetting(l, pa, pb, r) && y < |pb| && |idx| + 1 == |l.b.shape|
    ensures ColumnFactor(l, [pb[y]] + idx, k) == ColumnFactor(r, [y] + idx, k)
  {
    hide At;
    LeadOfBlock(l.a.shape, pb[y], idx, k);
    LeadOfBlock(r.a.shape, y, idx, k);
    BlocksAt(l.a, pa, r.a, if |pa| == 1 then 0 else y, LeadOf(l.a.shape[1..], idx) + [k] + [Last(idx)]);
  }

  /** A slice of a matrix takes rows of B. */
  lemma RowsSimulate(l: Lora, p: seq<nat>, b: Tensor, t: Tensor)
    requires Adapter(l) && |l.b.shape| == 2 && Blocks(l.b, p, b) && Blocks(Dense(l), p, t)
    requires forall y :: 0 <= y < |p| ==> p[y] < l.b.shape[0]
    ensures Adapter(Lora(l.a, b)) && t == Dense(Lora(l.a, b))
  {
    var r := Lora(l.a, b);
    assert b.shape == [|p|, l.b.shape[1]];
    assert t.shape == [|p|, l.a.shape[1]] == ShapeOf(r);
    forall full | InRange(t.shape, full)
      ensures At(t, full) == Dot(r, full, Last(b.shape))
    {
      var y, j := full[0], full[1];
      assert full == [y] + [j];
      BlocksAt(Dense(l), p, t, y, [j]);
      assert InRange(ShapeOf(l), [p[y]] + [j]);
      forall k | 0 <= k < Last(b.shape)
        ensures SameFactors(l, [p[y]] + [j], r, [y] + [j], k)
      {
        BlockInFront(p[y], [j], k);
        BlockInFront(y, [j], k);
        BlocksAt(l.b, p, b, y, Front([j]) + [k]);
        assert LeadOf(l.a.shape, [p[y]] + [j]) == LeadOf(l.a.shape, [y] + [j]);
      }
      DotSame(l, [p[y]] + [j], r, [y] + [j], Last(b.shape));
    }
    ProductIsDense(r, t);
  }

  /** The slice leaves out A's only block, while blocks of B remain. */
  predicate LosesA(l: Lora, item: Item)
    requires l.a.shape != [] && l.b.shape != []
  {
    && |l.b.shape| > 2 && item.Slice? && l.a.shape[0] == 1
    && Resolve(item, 1) == Some(Many([])) && Resolve(item, l.b.shape[0]) != Some(Many([]))
  }

  lemma OneOfOne(item: Item)
    requires item.Slice? && Resolve(item, 1).Some?
    ensures Resolve(item, 1).value.Many? && |Resolve(item, 1).value.positions| <= 1
  {
    var lo := if item.start.None? then 0 else Clamp(item.start.value, 1);
    if lo == 0 {
      assert Steps(item.step, 1, item.step) == [];
    }
  }

  /**
   Indexing a pair, whose A has one block or as many as B, by one entry indexes the tensor it
   stands for, except where the slice loses A's one block: those factors have no product.
   */
  lemma ItemSimulates(l: Lora, item: Item)
    requires Adapter(l) && (|l.b.shape| > 2 ==> l.a.shape[0] == 1 || l.a.shape[0] == l.b.shape[0])
    requires Broadcasts(l) && LoraItem(l, item).Some?
    ensures var r := LoraItem(l, item).value;
            && (!LosesA(l, item) ==> Adapter(r) && IndexBy(Dense(l), [item]) == Some(Dense(r)))
            && (!LosesA(l, item) <==> Broadcasts(r))
  {
    var r := LoraItem(l, item).value;
    IndexFirst(l.a, item);
    IndexFirst(l.b, item);
    IndexFirst(Dense(l), item);
    if |l.b.shape| == 2 {
      RowsSimulate(l, Resolve(item, l.b.shape[0]).value.positions, r.b, IndexBy(Dense(l), [item]).value);
    } else if item.Integer? {
      IntegerCase(l, item, r);
    } else {
      SliceCase(l, item, r);
    }
  }

  /** The blocks of a broadcasting pair broadcast. */
  lemma BlockBroadcasts(l: Lora, i: nat, ia: nat, r: Lora)
    requires Adapter(l) && |l.b.shape| > 2 && Broadcasts(l) && IsBlock(l.a, ia, r.a) && IsBlock(l.b, i, r.b)
    requires |r.a.shape| == |r.b.shape| >= 2
    ensures Broadcasts(r)
  {
    hide At, InRange, Dense;
    forall k | 0 <= k < |r.a.shape| - 2
      ensures r.a.shape[k] == 1 || r.a.shape[k] == r.b.shape[k]
    {
      assert r.a.shape[k] == l.a.shape[k + 1] && r.b.shape[k] == l.b.shape[k + 1];
    }
  }

  lemma IntegerCase(l: Lora, item: Item, r: Lora)
    requires Adapter(l) && |l.b.shape| > 2 && (l.a.shape[0] == 1 || l.a.shape[0] == l.b.shape[0])
    requires Broadcasts(l) && item.Integer? && LoraItem(l, item) == Some(r)
    ensures Adapter(r) && IndexBy(Dense(l), [item]) == Some(Dense(r)) && Broadcasts(r)
  {
    hide At, Dense, Dot, IsBlock, IndexBy, Broadcasts;
    IndexFirst(l.a, item);
    IndexFirst(l.b, item);
    IndexFirst(Dense(l), item);
    var i, ia := Resolve(item, l.b.shape[0]).value.i, Resolve(item, l.a.shape[0]).value.i;
    IntegerSimulates(l, i, ia, r, IndexBy(Dense(l), [item]).value);
    BlockBroadcasts(l, i, ia, r);
  }

  lemma SliceBroadcasts(l: Lora, pa: seq<nat>, pb: seq<nat>, r: Lora)
    requires Adapter(l) && |l.b.shape| > 2 && Broadcasts(l) && Blocks(l.a, pa, r.a) && Blocks(l.b, pb, r.b)
    ensures Broadcasts(r) <==> |pa| == 1 || |pa| == |pb|
  {
    forall k | 0 < k < |r.a.shape| - 2
      ensures r.a.shape[k] == 1 || r.a.shape[k] == r.b.shape[k]
    {
      assert r.a.shape[k] == l.a.shape[1..][k - 1] && r.b.shape[k] == l.b.shape[1..][k - 1];
    }
    assert r.a.shape[0] == |pa| && r.b.shape[0] == |pb|;
  }

  lemma SliceCase(l: Lora, item: Item, r: Lora)
    requires Adapter(l) && |l.b.shape| > 2 && (l.a.shape[0] == 1 || l.a.shape[0] == l.b.shape[0])
    requires Broadcasts(l) && item.Slice? && LoraItem(l, item) == Some(r)
    ensures !LosesA(l, item) ==> Adapter(r) && IndexBy(Dense(l), [item]) == Some(Dense(r))
    ensures !LosesA(l, item) <==> Broadcasts(r)
  {
    hide Blocks, Broadcasts, Dense, IndexBy, LosesA;
    IndexFirst(l.a, item);
    IndexFirst(l.b, item);
    IndexFirst(Dense(l), item);
    var pa, pb := Resolve(item, l.a.shape[0]).value.positions, Resolve(item, l.b.shape[0]).value.positions;
    SliceBroadcasts(l, pa, pb, r);
    SliceLoses(l, item, pa, pb);
    if !LosesA(l, item) {
      SliceSimulates(l, pa, pb, r, IndexBy(Dense(l), [item]).value);
    }
  }

  lemma SliceLoses(l: Lora, item: Item, pa: seq<nat>, pb: seq<nat>)
    requires Adapter(l) && |l.b.shape| > 2 && (l.a.shape[0] == 1 || l.a.shape[0] == l.b.shape[0]) && item.Slice?
    requires Resolve(item, l.a.shape[0]) == Some(Many(pa)) && Resolve(item, l.b.shape[0]) == Some(Many(pb))
    ensures LosesA(l, item) <==> l.a.shape[0] == 1 && pa == [] && pb != []
    ensures LosesA(l, item) <==> !(|pa| == 1 || |pa| == |pb|)
    ensures !LosesA(l, item) ==>
              (l.a.shape[0] == l.b.shape[0] && pa == pb) || (l.a.shape[0] == 1 && (|pa| == 1 || pb == []))
  {
    OneOfOne(item);
  }

  // ----- tuples with an ellipsis

  datatype Entry = Dots | Entry(item: Item)

  /** Every ellipsis becomes `m` whole dimensions. */
  function Spread(entries: seq<Entry>, m: nat): seq<Item> {
    if entries == [] then []
    else Spread(Front(entries), m) + (if Last(entries).Dots? then Alls(m) else [Last(entries).item])
  }

  /** The tuple the program indexes with; None where its assertion fails. */
  function WithoutDots(entries: seq<Entry>): Option<seq<Item>> {
    if entries == [] then None
    else if Last(entries).Dots? then WithoutDots(Front(entries))
    else Some(Spread(entries, |entries| - 1))
  }

  function Entries(items: seq<Item>): seq<Entry> {
    seq(|items|, k requires 0 <= k < |items| => Entry(items[k]))
  }

  /** What an ellipsis means for a tensor of `n` dimensions. */
  function Meant(before: seq<Item>, after: seq<Item>, n: nat): seq<Item>
    requires |before| + |after| <= n
  {
    before + Alls(n - |before| - |after|) + after
  }

  lemma {:induction false} SpreadItems(entries: seq<Entry>, items: seq<Item>, m: nat)
    ensures Spread(entries + Entries(items), m) == Spread(entries, m) + items
  {
    if items == [] {
      assert entries + Entries(items) == entries && Spread(entries, m) + items == Spread(entries, m);
    } else {
      SpreadItems(entries, Front(items), m);
      SpreadOne(entries + Entries(Front(items)), Last(items), m);
      EntriesSnoc(entries, Front(items), Last(items));
      assert items == Front(items) + [Last(items)];
      assert Spread(entries, m) + items == Spread(entries, m) + Front(items) + [Last(items)];
    }
  }

  lemma SpreadOne(entries: seq<Entry>, item: Item, m: nat)
    ensures Spread(entries + [Entry(item)], m) == Spread(entries, m) + [item]
  {
    FrontLast(entries, Entry(item));
  }

  lemma EntriesSnoc(entries: seq<Entry>, items: seq<Item>, item: Item)
    ensures entries + Entries(items + [item]) == entries + Entries(items) + [Entry(item)]
  {
    assert Entries(items + [item]) == Entries(items) + [Entry(item)];
  }

  lemma SpreadDots(before: seq<Item>, after: seq<Item>)
    requires after != []
    ensures WithoutDots(Entries(before) + [Dots] + Entries(after))
            == Some(before + Alls(|before| + |after|) + after)
  {
    var n := |before| + |after|;
    var entries := Entries(before) + [Dots] + Entries(after);
    assert entries == Front(entries) + [Entry(Last(after))] && |entries| == n + 1;
    FrontLast(Front(entries), Entry(Last(after)));
    SpreadItems(Entries(before) + [Dots], after, n);
    FrontLast(Entries(before), Dots);
    SpreadOnly(before, n);
  }

  lemma SpreadOnly(items: seq<Item>, m: nat)
    ensures Spread(Entries(items), m) == items
  {
    SpreadItems([], items, m);
    assert [] + Entries(items) == Entries(items) && Spread([], m) + items == items;
  }

  lemma Cancel(p: seq<Item>, x: seq<Item>, y: seq<Item>)
    ensures p + x == p + y <==> x == y
  {
    if p + x == p + y {
      assert x == (p + x)[|p|..] == (p + y)[|p|..] == y;
    }
  }

  /**
   A tuple with `m` entries besides an ellipsis in front of some of them is spread to twice as many.
   It is read as meant exactly when the tensor has 2m dimensions, or more of them and all entries
   after the ellipsis are whole dimensions. With fewer dimensions the tuple has become too long.
   */
  lemma EllipsisAsMeant(before: seq<Item>, after: seq<Item>, n: nat)
    requires after != [] && |before| + |after| <= n
    ensures var items := WithoutDots(Entries(before) + [Dots] + Entries(after));
            var m := |before| + |after|;
            && items.Some? && |items.value| == 2 * m
            && (2 * m <= n && Padded(items.value, n) == Meant(before, after, n)
                <==> 2 * m == n || (2 * m < n && forall k :: 0 <= k < |after| ==> after[k] == ALL))
  {
    SpreadDots(before, after);
    if 2 * (|before| + |after|) <= n {
      SpreadAsMeant(before, after, n);
    }
  }

  lemma SpreadAsMeant(before: seq<Item>, after: seq<Item>, n: nat)
    requires after != [] && 2 * (|before| + |after|) <= n
    ensures Padded(before + Alls(|before| + |after|) + after, n) == Meant(before, after, n)
            <==> n == 2 * (|before| + |after|) || forall k :: 0 <= k < |after| ==> after[k] == ALL
  {
    var m := |before| + |after|;
    var read := Padded(before + Alls(m) + after, n);
    assert read == before + Alls(m) + (after + Alls(n - 2 * m));
    assert Meant(before, after, n) == before + Alls(m) + (Alls(n - 2 * m) + after);
    Cancel(before + Alls(m), after + Alls(n - 2 * m), Alls(n - 2 * m) + after);
    if forall k :: 0 <= k < |after| ==> after[k] == ALL {
      assert after == Alls(|after|);
      assert after + Alls(n - 2 * m) == Alls(n - 2 * m) + after;
    } else if read == Meant(before, after, n) && n > 2 * m {
      ShiftedAll(after, n - 2 * m, |after|);
    } else if n == 2 * m {
      assert after + Alls(0) == after == Alls(0) + after;
    }
  }

  /** Whole dimensions add no list. */
  lemma SpreadLists(before: seq<Item>, after: seq<Item>, m: nat)
    ensures OneList(before + after) <==> OneList(before + Alls(m) + after)
  {
    var short, long := before + after, before + Alls(m) + after;
    if OneList(long) {
      forall i, j | 0 <= i < j < |short|
        ensures !short[i].Positions? || !short[j].Positions?
      {
        var i', j' := if i < |before| then i else i + m, if j < |before| then j else j + m;
        assert short[i] == long[i'] && short[j] == long[j'];
      }
    }
    if OneList(short) {
      forall i, j | 0 <= i < j < |long|
        ensures !long[i].Positions? || !long[j].Positions?
      {
        var ii, jj := if i < |before| then i else i - m, if j < |before| then j else j - m;
        assert |before| <= i < |before| + m ==> long[i] == ALL;
        assert |before| <= j < |before| + m ==> long[j] == ALL;
        assert !(|before| <= i < |before| + m) && !(|before| <= j < |before| + m) ==> long[i] == short[ii] && long[j] == short[jj];
      }
    }
  }

  /** A tuple that has become too long is refused. */
  lemma EllipsisTooLong(l: Lora, before: seq<Item>, after: seq<Item>)
    requires Adapter(l) && after != [] && OneList(before + after)
    requires |before| + |after| <= |l.b.shape| < 2 * (|before| + |after|)
    ensures var items := WithoutDots(Entries(before) + [Dots] + Entries(after));
            items.Some? && OneList(items.value) && LoraIndex(l, items.value).None?
  {
    EllipsisAsMeant(before, after, |l.b.shape|);
    SpreadDots(before, after);
    SpreadLists(before, after, |before| + |after|);
  }

  /** `[..., :, :]` means a whole matrix, and is refused. */
  lemma WholeMatrixRefused(l: Lora)
    requires Adapter(l) && |l.b.shape| == 2
    ensures var items := WithoutDots(Entries([]) + [Dots] + Entries([ALL, ALL]));
            items.Some? && OneList(items.value) && LoraIndex(l, items.value).None?
    ensures IndexBy(Dense(l), Meant([], [ALL, ALL], 2)).Some?
  {
    hide Dense, LoraIndex, WithoutDots, Spread;
    assert OneList([] + [ALL, ALL]);
    EllipsisTooLong(l, [], [ALL, ALL]);
    var s := ShapeOf(l);
    assert s == [] + s && Meant([], [ALL, ALL], 2) == [] + Alls(|s|);
    ResolvePrefix([], [], [], s);
    assert Padded(Alls(2), 2) == Alls(2) == [] + Alls(2);
  }

  const FIRST_TWO := Slice(None, Some(2), 1)

  lemma FirstTwo(n: nat)
    ensures Resolve(FIRST_TWO, n).Some? && Resolve(FIRST_TWO, n).value.Many?
    ensures |Resolve(FIRST_TWO, n).value.positions| == if n < 2 then n else 2
  {
    var hi := if 2 > n then n else 2;
    assert Steps(0, hi, 1) == if hi == 0 then [] else [0] + Steps(1, hi, 1);
    assert hi > 0 ==> Steps(1, hi, 1) == if hi == 1 then [] else [1] + Steps(2, hi, 1);
    assert Steps(2, hi, 1) == [];
  }

  lemma Three(t: Tensor, x: Item, y: Item, z: Item, p: seq<nat>, q: seq<nat>, r: seq<nat>)
    requires |t.shape| == 3 && OneList([x, y, z])
    requires Resolve(x, t.shape[0]) == Some(Many(p)) && Resolve(y, t.shape[1]) == Some(Many(q)) && Resolve(z, t.shape[2]) == Some(Many(r))
    ensures ResolveAll([x, y, z], t.shape) == Some([Many(p), Many(q), Many(r)])
    ensures IndexBy(t, [x, y, z]) == Some(Indexed(t, [Many(p), Many(q), Many(r)]))
    ensures IndexBy(t, [x, y, z]).value.shape == [|p|, |q|, |r|]
  {
    var s := t.shape;
    hide Resolve;
    assert [] + [Many(p)] == [Many(p)] && [Many(p)] + [Many(q)] == [Many(p), Many(q)];
    assert [Many(p), Many(q)] + [Many(r)] == [Many(p), Many(q), Many(r)];
    assert [] + [x] == [x] && [x] + [y] == [x, y] && [x, y] + [z] == [x, y, z];
    assert [] + [s[0]] == [s[0]] && [s[0]] + [s[1]] == [s[0], s[1]] && [s[0], s[1]] + [s[2]] == s;
    ResolveSnoc([], [], x, Many(p), [], s[0]);
    ResolveSnoc([x], [Many(p)], y, Many(q), [s[0]], s[1]);
    ResolveSnoc([x, y], [Many(p), Many(q)], z, Many(r), [s[0], s[1]], s[2]);
    assert Padded([x, y, z], 3) == [x, y, z];
    SelShapeSnoc([], p);
    SelShapeSnoc([Many(p)], q);
    SelShapeSnoc([Many(p), Many(q)], r);
  }

  /**
   `[..., :2]` on three dimensions asks for the first two columns; the program answers with the
   first two rows. No error is raised, and the shapes differ whenever there are more than two of either.
   */
  lemma ColumnsReadAsRows(t: Tensor)
    requires |t.shape| == 3
    ensures var items := WithoutDots(Entries([]) + [Dots] + Entries([FIRST_TWO]));
            var a, b, c := t.shape[0], t.shape[1], t.shape[2];
            && items.Some? && OneList(items.value) && OneList(Meant([], [FIRST_TWO], 3))
            && IndexBy(t, Meant([], [FIRST_TWO], 3)).Some? && IndexBy(t, items.value).Some?
            && IndexBy(t, Meant([], [FIRST_TWO], 3)).value.shape == [a, b, if c < 2 then c else 2]
            && IndexBy(t, items.value).value.shape == [a, if b < 2 then b else 2, c]
  {
    hide Resolve, ResolveAll, SelShape, WithoutDots, IndexBy;
    var s := t.shape;
    TwoReadings();
    FirstTwo(s[1]);
    FirstTwo(s[2]);
    AllIsFull(s[0]);
    AllIsFull(s[1]);
    AllIsFull(s[2]);
    var f1, f2 := Resolve(FIRST_TWO, s[1]).value.positions, Resolve(FIRST_TWO, s[2]).value.positions;
    Three(t, ALL, ALL, FIRST_TWO, Full(s[0]).positions, Full(s[1]).positions, f2);
    SameMeaning(t, [ALL, FIRST_TWO], [ALL, FIRST_TWO, ALL]);
    Three(t, ALL, FIRST_TWO, ALL, Full(s[0]).positions, f1, Full(s[2]).positions);
  }

  lemma TwoReadings()
    ensures Meant([], [FIRST_TWO], 3) == [ALL, ALL, FIRST_TWO]
    ensures WithoutDots(Entries([]) + [Dots] + Entries([FIRST_TWO])) == Some([ALL, FIRST_TWO])
    ensures Padded([ALL, FIRST_TWO], 3) == [ALL, FIRST_TWO, ALL]
  {
    SpreadDots([], [FIRST_TWO]);
    assert [] + Alls(1) + [FIRST_TWO] == [ALL, FIRST_TWO];
    assert [] + Alls(2) + [FIRST_TWO] == [ALL, ALL, FIRST_TWO];
  }

  lemma {:induction false} ShiftedAll(after: seq<Item>, d: nat, k: nat)
    requires d > 0 && k <= |after|
    requires after + Alls(d) == Alls(d) + after
    ensures forall j :: 0 <= j < k ==> after[j] == ALL
  {
    if k > 0 {
      ShiftedAll(after, d, k - 1);
      assert (after + Alls(d))[k - 1] == (Alls(d) + after)[k - 1];
    }
  }

  /** A tuple that ends in an ellipsis is read without it, which is what it means. */
  lemma TrailingEllipsis(before: seq<Item>, n: nat)
    requires |before| <= n
    ensures WithoutDots(Entries(before) + [Dots]) == if before == [] then None else Some(before)
    ensures Padded(before, n) == Meant(before, [], n)
  {
    FrontLast(Entries(before), Dots);
    if before != [] {
      SpreadOnly(before, |before| - 1);
    }
  }

  lemma SameMeaning(t: Tensor, items: Tuple, meant: Tuple)
    requires |items| <= |t.shape| == |meant| && Padded(items, |t.shape|) == meant
    ensures IndexBy(t, items) == IndexBy(t, meant)
  {
    assert Padded(meant, |meant|) == meant;
  }

  lemma EllipsisReads(before: seq<Item>, after: seq<Item>, items: Tuple, n: nat)
    requires |before| + |after| <= n && |items| <= n && WithoutDots(Entries(before) + [Dots] + Entries(after)) == Some(items)
    requires after == [] || 2 * (|before| + |after|) == n || forall k :: 0 <= k < |after| ==> after[k] == ALL
    ensures Padded(items, n) == Meant(before, after, n) && OneList(Meant(before, after, n))
  {
    hide OneList, Spread, WithoutDots;
    if after == [] {
      assert Entries(before) + [Dots] + Entries(after) == Entries(before) + [Dots];
      TrailingEllipsis(before, n);
      assert before + after == items;
    } else {
      SpreadDots(before, after);
      EllipsisAsMeant(before, after, n);
      SpreadLists(before, after, |before| + |after|);
    }
    SpreadLists(before, after, n - |before| - |after|);
  }

  /** Where the ellipsis is read as meant, indexing the pair by the tuple indexes its tensor by what is meant. */
  lemma EllipsisSimulates(l: Lora, before: seq<Item>, after: seq<Item>, items: Tuple)
    requires Adapter(l) && LeadsOne(l) && |before| + |after| <= |l.b.shape|
    requires WithoutDots(Entries(before) + [Dots] + Entries(after)) == Some(items)
    requires LoraIndex(l, items).Some? && !TwoIntegers(Selections(l, items).value)
    requires after == [] || 2 * (|before| + |after|) == |l.b.shape|
             || forall k :: 0 <= k < |after| ==> after[k] == ALL
    ensures var meant := Meant(before, after, |l.b.shape|);
            OneList(meant) && IndexBy(Dense(l), meant) == Some(Dense(LoraIndex(l, items).value))
  {
    hide IndexBy, LeadsOne, Meant, OneList, Padded, Selections, Spread, TwoIntegers, WithoutDots;
    var n := |l.b.shape|;
    IndexSimulates(l, items);
    EllipsisReads(before, after, items, n);
    SameMeaning(Dense(l), items, Meant(before, after, n));
  }
}

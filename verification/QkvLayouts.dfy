/**
 Splitting joint QKV weights: `g` key/value groups, each of `q` query heads, one key head and one
 value head of `d` rows (FalconModel and InternLM2Model in convert_hf_to_gguf.py).
 */
module QkvLayouts {
  import opened Base
  import opened Arithmetic
  import opened Tensors
  import opened Lora
  import opened LoraItems
  import opened LoraExpressions
  import opened RowLayouts

  // ----- indexing the second dimension

  lemma ExpandFull(a: nat, i: nat)
    requires i < a
    ensures SelShape([Full(a)]) == [a] && InRange([a], [i]) && Expand([Full(a)], [i]) == [i]
  {
    assert Front([Full(a)]) == [] && Front([i]) == [];
  }

  lemma ExpandPair(a: nat, p: seq<nat>, i: nat, j: nat)
    requires i < a && j < |p|
    ensures SelShape([Full(a), Many(p)]) == [a, |p|]
    ensures InRange([a, |p|], [i, j]) && Expand([Full(a), Many(p)], [i, j]) == [i, p[j]]
  {
    assert [Full(a), Many(p)] == [Full(a)] + [Many(p)] && [i, j] == [i] + [j];
    ExpandFull(a, i);
    SelShapeSnoc([Full(a)], p);
    ExpandSnoc([Full(a)], p, [i], j);
  }

  lemma ExpandSnocOne(sels: seq<Sel>, o: nat, idx: Index)
    requires InRange(SelShape(sels), idx)
    ensures SelShape(sels + [One(o)]) == SelShape(sels)
    ensures Expand(sels + [One(o)], idx) == Expand(sels, idx) + [o]
  {
    FrontLast(sels, One(o));
  }

  lemma ExpandInteger(a: nat, o: nat, i: nat)
    requires i < a
    ensures SelShape([Full(a), One(o)]) == [a]
    ensures InRange([a], [i]) && Expand([Full(a), One(o)], [i]) == [i, o]
  {
    assert [Full(a), One(o)] == [Full(a)] + [One(o)] && [i, o] == [i] + [o];
    ExpandFull(a, i);
    ExpandSnocOne([Full(a)], o, [i]);
  }

  lemma SecondManyAt(t: Tensor, a: nat, p: seq<nat>, rest: Shape, r: Tensor, i: nat, j: nat, idx: Index)
    requires IsIndexed(t, [Full(a), Many(p)] + Wholes(rest), r)
    requires i < a && j < |p| && InRange(rest, idx)
    ensures At(r, [i, j] + idx) == At(t, [i, p[j]] + idx)
  {
    ExpandPair(a, p, i, j);
    ExpandPrefix([Full(a), Many(p)], rest, [i, j], idx);
  }

  lemma SecondOneAt(t: Tensor, a: nat, o: nat, rest: Shape, r: Tensor, i: nat, idx: Index)
    requires IsIndexed(t, [Full(a), One(o)] + Wholes(rest), r)
    requires i < a && InRange(rest, idx)
    ensures At(r, [i] + idx) == At(t, [i, o] + idx)
  {
    ExpandInteger(a, o, i);
    ExpandPrefix([Full(a), One(o)], rest, [i], idx);
  }

  /** `[:, item]` takes positions of the second dimension. */
  lemma SecondMany(t: Tensor, a: nat, b: nat, rest: Shape, item: Item, p: seq<nat>)
    requires t.shape == [a, b] + rest && Resolve(item, b) == Some(Many(p))
    ensures IndexBy(t, [ALL, item]).Some?
    ensures IndexBy(t, [ALL, item]).value.shape == [a, |p|] + rest
    ensures IsIndexed(t, [Full(a), Many(p)] + Wholes(rest), IndexBy(t, [ALL, item]).value)
  {
    SecondResolves(t, a, b, rest, item);
    SecondShape(a, p, rest);
  }

  lemma FullShape(a: nat)
    ensures SelShape([Full(a)]) == [a]
  {
    assert Front([Full(a)]) == [];
  }

  lemma SecondShape(a: nat, p: seq<nat>, rest: Shape)
    ensures SelShape([Full(a), Many(p)] + Wholes(rest)) == [a, |p|] + rest
  {
    FullShape(a);
    SelShapeSnoc([Full(a)], p);
    assert [Full(a)] + [Many(p)] == [Full(a), Many(p)] && [a] + [|p|] == [a, |p|];
    PrefixShape([Full(a), Many(p)], rest);
  }

  /** `[:, integer]` takes one position and drops the dimension. */
  lemma SecondOne(t: Tensor, a: nat, b: nat, rest: Shape, item: Item, o: nat)
    requires t.shape == [a, b] + rest && Resolve(item, b) == Some(One(o))
    ensures IndexBy(t, [ALL, item]).Some?
    ensures IndexBy(t, [ALL, item]).value.shape == [a] + rest
    ensures IsIndexed(t, [Full(a), One(o)] + Wholes(rest), IndexBy(t, [ALL, item]).value)
  {
    SecondResolves(t, a, b, rest, item);
    FullShape(a);
    FrontLast([Full(a)], One(o));
    assert [Full(a)] + [One(o)] == [Full(a), One(o)];
    PrefixShape([Full(a), One(o)], rest);
  }

  lemma SecondResolves(t: Tensor, a: nat, b: nat, rest: Shape, item: Item)
    requires t.shape == [a, b] + rest && Resolve(item, b).Some?
    ensures IndexBy(t, [ALL, item]) == Some(Indexed(t, [Full(a), Resolve(item, b).value] + Wholes(rest)))
  {
    var sel := Resolve(item, b).value;
    AllIsFull(a);
    ResolveOne(ALL, a);
    ResolveSnoc([ALL], [Full(a)], item, sel, [a], b);
    assert [ALL] + [item] == [ALL, item] && [a] + [b] == [a, b] && [Full(a)] + [sel] == [Full(a), sel];
    ResolvePrefix([ALL, item], [Full(a), sel], [a, b], rest);
    assert Padded([ALL, item], |t.shape|) == [ALL, item] + Alls(|rest|);
  }

  // ----- one part of the joint weights

  /** The number of rows of `w` heads in each of `g` groups: g * w * d. */
  function HeadRows(g: nat, w: nat, d: nat): nat {
    Count([g, w, d])
  }

  /** Row `x` of head `o` of group `j`, for groups of `w` heads: (j * w + o) * d + x. */
  function HeadRow(g: nat, w: nat, d: nat, j: nat, o: nat, x: nat): nat {
    Flat([g, w, d], [j, o, x])
  }

  lemma RowsOf(g: nat, w: nat, d: nat, j: nat, o: nat, x: nat)
    ensures HeadRows(g, w, d) == Times(Times(g, w), d) && HeadRow(g, w, d, j, o, x) == Times(Times(j, w) + o, d) + x
  {
    FlatThree(g, w, d, j, o, x);
  }

  lemma HeadRowBound(g: nat, w: nat, d: nat, j: nat, o: nat, x: nat)
    requires j < g && o < w && x < d
    ensures HeadRow(g, w, d, j, o, x) < HeadRows(g, w, d)
  {
    assert InRange([g, w, d], [j, o, x]);
    FlatBound([g, w, d], [j, o, x]);
  }

  function View(g: nat, w: nat, d: nat, n: nat): Expr {
    Reshaped(Whole, [g, w, d, n])
  }

  lemma ViewAt(t: Tensor, g: nat, w: nat, d: nat, n: nat)
    requires Valid(t) && t.shape == [HeadRows(g, w, d), n]
    ensures EvalDense(View(g, w, d, n), t).Some?
    ensures var v := EvalDense(View(g, w, d, n), t).value;
            && Valid(v) && v.shape == [g, w] + [d, n]
            && forall j: nat, o: nat, x: nat, y: nat {:trigger At(v, [j, o] + [x, y])} ::
                 j < g && o < w && x < d && y < n ==> At(v, [j, o] + [x, y]) == At(t, [HeadRow(g, w, d, j, o, x), y])
  {
    ViewShape(g, w, d, n);
    NatShape([g, w, d, n], Count(t.shape));
    assert EvalDense(Whole, t) == Some(t);
    assert EvalDense(View(g, w, d, n), t) == ReshapeTo(t, [g, w, d, n]);
    var v := EvalDense(View(g, w, d, n), t).value;
    forall j: nat, o: nat, x: nat, y: nat | j < g && o < w && x < d && y < n
      ensures At(v, [j, o] + [x, y]) == At(t, [HeadRow(g, w, d, j, o, x), y])
    {
      SplitAt(t, v, g, w, d, n, j, o, x, y);
    }
  }

  lemma ViewShape(g: nat, w: nat, d: nat, n: nat)
    ensures [g, w] + [d, n] == [g, w, d, n] == [g, w, d] + [n]
    ensures Count([g, w, d, n]) == Count([HeadRows(g, w, d), n])
  {
    assert [g, w, d, n] == [g, w, d] + [n];
    assert [HeadRows(g, w, d), n] == [HeadRows(g, w, d)] + [n];
    FlatOne(HeadRows(g, w, d), 0);
    FlatSnoc([g, w, d], n, [0, 0, 0], 0);
    FlatSnoc([HeadRows(g, w, d)], n, [0], 0);
  }

  lemma SplitAt(t: Tensor, v: Tensor, g: nat, w: nat, d: nat, n: nat, j: nat, o: nat, x: nat, y: nat)
    requires Valid(t) && Valid(v) && v.data == t.data && t.shape == [HeadRows(g, w, d), n] && v.shape == [g, w, d, n]
    requires j < g && o < w && x < d && y < n
    ensures At(v, [j, o] + [x, y]) == At(t, [HeadRow(g, w, d, j, o, x), y])
  {
    var m := HeadRow(g, w, d, j, o, x);
    assert [g, w, d, n] == [g, w, d] + [n] && [j, o] + [x, y] == [j, o, x] + [y] && [m, y] == [m] + [y];
    assert InRange([g, w, d], [j, o, x]);
    FlatBound([g, w, d], [j, o, x]);
    FlatOne(HeadRows(g, w, d), m);
    RegroupedAt(t, v, [HeadRows(g, w, d)], [g, w, d], [n], [m], [j, o, x], [y]);
  }

  /** `r` holds the heads at the `m` positions `p` of all groups: row `x` of the `i`-th of them in group `j`. */
  ghost predicate IsPart(t: Tensor, r: Tensor, g: nat, w: nat, d: nat, n: nat, p: seq<nat>, m: nat) {
    && Valid(r) && |p| == m && r.shape == [HeadRows(g, m, d), n]
    && forall j: nat, i: nat, x: nat, y: nat {:trigger At(r, [HeadRow(g, m, d, j, i, x), y])} ::
         j < g && i < m && x < d && y < n ==>
           At(r, [HeadRow(g, m, d, j, i, x), y]) == At(t, [HeadRow(g, w, d, j, p[i], x), y])
  }

  lemma PartMany(t: Tensor, g: nat, w: nat, d: nat, n: nat, item: Item, p: seq<nat>, shape: seq<int>)
    requires Valid(t) && t.shape == [HeadRows(g, w, d), n] && Resolve(item, w) == Some(Many(p))
    requires Expanded(shape, Count([g, |p|, d, n])) == Some([HeadRows(g, |p|, d), n])
    ensures var r := EvalDense(Reshaped(Select(View(g, w, d, n), [ALL, item]), shape), t);
            r.Some? && IsPart(t, r.value, g, w, d, n, p, |p|)
  {
    hide At, Flat, Resolve, View;
    ViewAt(t, g, w, d, n);
    var v := EvalDense(View(g, w, d, n), t).value;
    SecondMany(v, g, w, [d, n], item, p);
    var u := IndexBy(v, [ALL, item]).value;
    assert EvalDense(Select(View(g, w, d, n), [ALL, item]), t) == Some(u);
    ViewShape(g, |p|, d, n);
    var r := Reshape(u, [HeadRows(g, |p|, d), n]).value;
    assert EvalDense(Reshaped(Select(View(g, w, d, n), [ALL, item]), shape), t) == Some(r);
    forall j: nat, i: nat, x: nat, y: nat | j < g && i < |p| && x < d && y < n
      ensures At(r, [HeadRow(g, |p|, d, j, i, x), y]) == At(t, [HeadRow(g, w, d, j, p[i], x), y])
    {
      ResolvedPosition(item, w, p, i);
      assert InRange([d, n], [x, y]);
      SecondManyAt(v, g, p, [d, n], u, j, i, [x, y]);
      SplitAt(r, u, g, |p|, d, n, j, i, x, y);
    }
  }

  lemma ResolvedPosition(item: Item, w: nat, p: seq<nat>, i: nat)
    requires Resolve(item, w) == Some(Many(p)) && i < |p|
    ensures p[i] < w
  {
    assert Fits([w], [Many(p)]) && [w][0] == w && [Many(p)][0] == Many(p);
  }

  /** One head of all groups, taken by an integer. */
  lemma PartOne(t: Tensor, g: nat, w: nat, d: nat, n: nat, item: Item, o: nat, shape: seq<int>)
    requires Valid(t) && t.shape == [HeadRows(g, w, d), n] && Resolve(item, w) == Some(One(o)) && o < w
    requires Expanded(shape, Count([g, d, n])) == Some([HeadRows(g, 1, d), n])
    ensures var r := EvalDense(Reshaped(Select(View(g, w, d, n), [ALL, item]), shape), t);
            r.Some? && IsPart(t, r.value, g, w, d, n, [o], 1)
  {
    hide At, Flat, Resolve, View;
    ViewAt(t, g, w, d, n);
    var v := EvalDense(View(g, w, d, n), t).value;
    SecondOne(v, g, w, [d, n], item, o);
    var u := IndexBy(v, [ALL, item]).value;
    assert EvalDense(Select(View(g, w, d, n), [ALL, item]), t) == Some(u);
    MatrixCount(g, d, n);
    assert u.shape == [g] + [d, n] == [g, d, n];
    var r := Reshape(u, [HeadRows(g, 1, d), n]).value;
    assert EvalDense(Reshaped(Select(View(g, w, d, n), [ALL, item]), shape), t) == Some(r);
    forall j: nat, i: nat, x: nat, y: nat | j < g && i < 1 && x < d && y < n
      ensures At(r, [HeadRow(g, 1, d, j, i, x), y]) == At(t, [HeadRow(g, w, d, j, [o][i], x), y])
    {
      SecondOneAt(v, g, o, [d, n], u, j, [x, y]);
      MatrixAt(r, u, g, d, n, j, x, HeadRow(g, 1, d, j, 0, x), y);
    }
  }

  lemma MatrixCount(g: nat, d: nat, n: nat)
    ensures Count([g, d, n]) == Count([HeadRows(g, 1, d), n])
  {
    SingleHead(g, d, 0, 0);
    FlatThree(g, d, n, 0, 0, 0);
    FlatTwo(HeadRows(g, 1, d), n, 0, 0);
  }

  /** With one head in every group, groups are heads. */
  lemma SingleHead(g: nat, d: nat, j: nat, x: nat)
    ensures HeadRows(g, 1, d) == Times(g, d) == Count([g, d]) && HeadRow(g, 1, d, j, 0, x) == Flat([g, d], [j, x])
    ensures Flat([g, d], [j, x]) == Times(j, d) + x
  {
    RowsOf(g, 1, d, j, 0, x);
    FlatTwo(g, d, j, x);
    TimesIs(g, 1);
    TimesIs(j, 1);
  }

  lemma MatrixAt(r: Tensor, u: Tensor, g: nat, d: nat, n: nat, j: nat, x: nat, m: nat, y: nat)
    requires Valid(r) && Valid(u) && u.data == r.data && u.shape == [g] + [d, n] && r.shape == [HeadRows(g, 1, d), n]
    requires j < g && x < d && y < n && m == HeadRow(g, 1, d, j, 0, x)
    ensures At(r, [m, y]) == At(u, [j] + [x, y])
  {
    SingleHead(g, d, j, x);
    JoinedMatrix(r, u, g, d, n, HeadRows(g, 1, d), j, x, m, y);
  }

  lemma JoinedMatrix(r: Tensor, u: Tensor, g: nat, d: nat, n: nat, rows: nat, j: nat, x: nat, m: nat, y: nat)
    requires Valid(r) && Valid(u) && u.data == r.data && u.shape == [g] + [d, n] && r.shape == [rows, n]
    requires j < g && x < d && y < n && m == Flat([g, d], [j, x]) && rows == Count([g, d])
    ensures At(r, [m, y]) == At(u, [j] + [x, y])
  {
    assert InRange([g, d], [j, x]);
    FlatBound([g, d], [j, x]);
    FlatOne(rows, m);
    assert [g] + [d, n] == [g, d] + [n] && [j] + [x, y] == [j, x] + [y] && [m, y] == [m] + [y] && [rows, n] == [rows] + [n];
    RegroupedAt(u, r, [g, d], [rows], [n], [j, x], [m], [y]);
  }

  // ----- Falcon

  /** The whole rearrangement, for weights of the given shape. */
  function FalconExpr(nHead: nat, nHeadKv: nat, headDim: nat, shape: Shape): (e: Expr)
    requires nHeadKv > 0
    ensures e.Reshaped?
  {
    var n := Times(headDim, nHead);
    var qkv := View(nHeadKv, Quotient(nHead, nHeadKv) + 2, headDim, n);
    var q := Reshaped(Select(qkv, [ALL, Slice(None, Some(-2), 1)]), [Times(nHead, headDim), n]);
    var k := Reshaped(Select(qkv, [ALL, Positions([-2])]), [Times(nHeadKv, headDim), n]);
    var v := Reshaped(Select(qkv, [ALL, Positions([-1])]), [Times(nHeadKv, headDim), n]);
    Reshaped(Concatenated([q, k, v]), shape)
  }

  /** The regrouped weights; `headDim` is the hidden size divided by the number of heads, rounded down. */
  ghost function FalconRegroup(qkv: Tensor, nHead: nat, nHeadKv: nat, headDim: nat): Option<Tensor>
    requires Valid(qkv)
  {
    if nHeadKv == 0 then None else EvalDense(FalconExpr(nHead, nHeadKv, headDim, qkv.shape), qkv)
  }

  /** Where row `x` of head `o` of group `j` goes: all queries, then all keys, then all values. */
  function FalconRow(g: nat, q: nat, d: nat, j: nat, o: nat, x: nat): nat {
    if o < q then HeadRow(g, q, d, j, o, x)
    else if o == q then HeadRows(g, q, d) + HeadRow(g, 1, d, j, 0, x)
    else HeadRows(g, q, d) + HeadRows(g, 1, d) + HeadRow(g, 1, d, j, 0, x)
  }

  lemma FalconItems(q: nat)
    ensures Resolve(Slice(None, Some(-2), 1), q + 2) == Some(Full(q))
    ensures Resolve(Positions([-2]), q + 2) == Some(Many([q]))
    ensures Resolve(Positions([-1]), q + 2) == Some(Many([q + 1]))
  {
    AllIsFull(q);
    assert Resolve(Positions([-2]), q + 2).value.positions == [q];
    assert Resolve(Positions([-1]), q + 2).value.positions == [q + 1];
  }

  /** Three matrices on top of each other. */
  lemma CatThree(a: Tensor, b: Tensor, c: Tensor, k: nat, m: nat, n: nat)
    requires Valid(a) && Valid(b) && Valid(c) && a.shape == [k, n] && b.shape == [m, n] && c.shape == [m, n]
    ensures CatTwo(a, b).Some? && CatTwo(CatTwo(a, b).value, c).Some? && CatRows([a, b, c]) == CatTwo(CatTwo(a, b).value, c)
    ensures Valid(CatTwo(a, b).value) && CatTwo(a, b).value.shape == [k + m, n]
    ensures Valid(CatRows([a, b, c]).value) && CatRows([a, b, c]).value.shape == [k + m + m, n]
  {
    CatThreeIs(a, b, c);
    assert a.shape[1..] == b.shape[1..] == c.shape[1..] == [n];
    var ab := CatTwo(a, b).value;
    CatTwoValid(a, b);
    assert ab.shape == [k + m, n] && ab.shape[1..] == [n];
    CatTwoValid(ab, c);
  }

  lemma InFirst(a: Tensor, b: Tensor, c: Tensor, k: nat, m: nat, n: nat, i: nat, y: nat)
    requires Valid(a) && Valid(b) && Valid(c) && a.shape == [k, n] && b.shape == [m, n] && c.shape == [m, n]
    requires i < k && CatRows([a, b, c]).Some?
    ensures At(CatRows([a, b, c]).value, [i, y]) == At(a, [i, y])
  {
    CatThree(a, b, c, k, m, n);
    CatTwoFirst(CatTwo(a, b).value, c, i, [y]);
    CatTwoFirst(a, b, i, [y]);
    assert [i] + [y] == [i, y];
  }

  lemma InSecond(a: Tensor, b: Tensor, c: Tensor, k: nat, m: nat, n: nat, i: nat, to: nat, y: nat)
    requires Valid(a) && Valid(b) && Valid(c) && a.shape == [k, n] && b.shape == [m, n] && c.shape == [m, n]
    requires i < m && CatRows([a, b, c]).Some? && to == k + i
    ensures At(CatRows([a, b, c]).value, [to, y]) == At(b, [i, y])
  {
    CatThree(a, b, c, k, m, n);
    CatTwoFirst(CatTwo(a, b).value, c, to, [y]);
    CatTwoSecond(a, b, i, to, [y]);
    assert [i] + [y] == [i, y] && [to] + [y] == [to, y];
  }

  lemma InThird(a: Tensor, b: Tensor, c: Tensor, k: nat, m: nat, n: nat, i: nat, to: nat, y: nat)
    requires Valid(a) && Valid(b) && Valid(c) && a.shape == [k, n] && b.shape == [m, n] && c.shape == [m, n]
    requires CatRows([a, b, c]).Some? && to == k + m + i
    ensures At(CatRows([a, b, c]).value, [to, y]) == At(c, [i, y])
  {
    CatThree(a, b, c, k, m, n);
    CatTwoSecond(CatTwo(a, b).value, c, i, to, [y]);
    assert [i] + [y] == [i, y] && [to] + [y] == [to, y];
  }

  lemma CatThreeIs(a: Tensor, b: Tensor, c: Tensor)
    ensures CatRows([a, b, c]) == if CatTwo(a, b).None? then None else CatTwo(CatTwo(a, b).value, c)
  {
    assert Front([a, b, c]) == [a, b] && Front([a, b]) == [a];
    assert CatRows([a]) == Some(a);
    assert CatRows([a, b]) == CatTwo(a, b);
  }

  /** One part of the weights, with the number of its rows written out. */
  function PartExpr(g: nat, q: nat, d: nat, n: nat, item: Item, rows: nat): Expr {
    Reshaped(Select(View(g, q + 2, d, n), [ALL, item]), [rows, n])
  }

  lemma FalconPart(t: Tensor, g: nat, q: nat, d: nat, n: nat, item: Item, p: seq<nat>, rows: nat)
    requires Valid(t) && t.shape == [HeadRows(g, q + 2, d), n] && Resolve(item, q + 2) == Some(Many(p))
    requires rows == HeadRows(g, |p|, d)
    ensures EvalDense(PartExpr(g, q, d, n, item, rows), t).Some?
    ensures IsPart(t, EvalDense(PartExpr(g, q, d, n, item, rows), t).value, g, q + 2, d, n, p, |p|)
  {
    RowsOf(g, |p|, d, 0, 0, 0);
    NatShape([rows, n], Count([g, |p|, d, n]));
    PartMany(t, g, q + 2, d, n, item, p, [rows, n]);
  }

  lemma FalconParts(t: Tensor, nHead: nat, g: nat, q: nat, d: nat, n: nat)
    returns (qs: Tensor, ks: Tensor, vs: Tensor)
    requires Valid(t) && g > 0 && nHead == Times(g, q) && t.shape == [HeadRows(g, q + 2, d), n] && n == Times(d, nHead)
    ensures AreParts(t, g, q, d, n, qs, ks, vs)
    ensures EvalDense(FalconExpr(nHead, g, d, t.shape).of, t) == CatRows([qs, ks, vs])
  {
    var i0, i1, i2 := Slice(None, Some(-2), 1), Positions([-2]), Positions([-1]);
    var queries, others := HeadRows(g, q, d), HeadRows(g, 1, d);
    FalconItems(q);
    RowsOf(g, q + 2, d, 0, 0, 0);
    FalconPart(t, g, q, d, n, i0, Full(q).positions, queries);
    FalconPart(t, g, q, d, n, i1, [q], others);
    FalconPart(t, g, q, d, n, i2, [q + 1], others);
    var e0, e1, e2 := PartExpr(g, q, d, n, i0, queries), PartExpr(g, q, d, n, i1, others), PartExpr(g, q, d, n, i2, others);
    qs, ks, vs := EvalDense(e0, t).value, EvalDense(e1, t).value, EvalDense(e2, t).value;
    EvalThree(t, e0, e1, e2, qs, ks, vs);
    FalconExprIs(nHead, g, q, d, n, t.shape);
  }

  lemma FalconExprIs(nHead: nat, g: nat, q: nat, d: nat, n: nat, shape: Shape)
    requires g > 0 && nHead == Times(g, q) && n == Times(d, nHead)
    ensures FalconExpr(nHead, g, d, shape)
            == Reshaped(Concatenated([PartExpr(g, q, d, n, Slice(None, Some(-2), 1), HeadRows(g, q, d)),
                                      PartExpr(g, q, d, n, Positions([-2]), HeadRows(g, 1, d)),
                                      PartExpr(g, q, d, n, Positions([-1]), HeadRows(g, 1, d))]), shape)
  {
    FalconCounts(nHead, g, q, d);
  }

  lemma FalconCounts(nHead: nat, g: nat, q: nat, d: nat)
    requires g > 0 && nHead == Times(g, q)
    ensures Quotient(nHead, g) == q && Times(nHead, d) == HeadRows(g, q, d) && Times(g, d) == HeadRows(g, 1, d)
  {
    hide Quotient, Times;
    TimesSwap(g, q);
    QuotientOf(q, g, 0);
    TimesIs(g, 1);
    RowsOf(g, q, d, 0, 0, 0);
    RowsOf(g, 1, d, 0, 0, 0);
  }

  lemma EvalThree(t: Tensor, e0: Expr, e1: Expr, e2: Expr, a: Tensor, b: Tensor, c: Tensor)
    requires Valid(t) && EvalDense(e0, t) == Some(a) && EvalDense(e1, t) == Some(b) && EvalDense(e2, t) == Some(c)
    ensures EvalDense(Concatenated([e0, e1, e2]), t) == CatRows([a, b, c])
  {
    EvalOne(t, e2, c);
    EvalCons(t, e1, [e2], b, [c]);
    assert [e1] + [e2] == [e1, e2] && [b] + [c] == [b, c];
    EvalCons(t, e0, [e1, e2], a, [b, c]);
    assert [e0] + [e1, e2] == [e0, e1, e2] && [a] + [b, c] == [a, b, c];
    EvalParts(t, [e0, e1, e2], [a, b, c]);
  }

  lemma EvalParts(t: Tensor, es: seq<Expr>, vs: seq<Tensor>)
    requires Valid(t) && EvalDenses(es, t) == Some(vs)
    ensures EvalDense(Concatenated(es), t) == CatRows(vs)
  {
  }

  lemma EvalOne(t: Tensor, e: Expr, v: Tensor)
    requires Valid(t) && EvalDense(e, t) == Some(v)
    ensures EvalDenses([e], t) == Some([v])
  {
    EvalCons(t, e, [], v, []);
    assert [e] + [] == [e] && [v] + [] == [v];
  }

  lemma EvalCons(t: Tensor, e: Expr, es: seq<Expr>, a: Tensor, rest: seq<Tensor>)
    requires Valid(t) && EvalDense(e, t) == Some(a) && EvalDenses(es, t) == Some(rest)
    ensures EvalDenses([e] + es, t) == Some([a] + rest)
  {
    assert ([e] + es)[1..] == es;
  }

  lemma AllRows(g: nat, q: nat, d: nat)
    ensures HeadRows(g, q, d) + HeadRows(g, 1, d) + HeadRows(g, 1, d) == HeadRows(g, q + 2, d)
  {
    RowsOf(g, q, d, 0, 0, 0);
    RowsOf(g, 1, d, 0, 0, 0);
    RowsOf(g, q + 2, d, 0, 0, 0);
    TimesSwap(g, q);
    TimesSwap(g, 1);
    TimesSwap(g, q + 2);
    TimesAdd(q, 2, g);
    assert Times(2, g) == Times(1, g) + g && Times(1, g) == g;
    TimesAdd(Times(q, g), g, d);
    TimesAdd(Times(q, g) + g, g, d);
  }

  /** Every row of the joint weights is found at its place; the shape is kept. */
  lemma FalconRegroups(t: Tensor, nHead: nat, g: nat, q: nat, d: nat, j: nat, o: nat, x: nat, from: nat, to: nat, y: nat)
    requires Valid(t) && g > 0 && nHead == Times(g, q) && t.shape == [HeadRows(g, q + 2, d), Times(d, nHead)]
    requires j < g && o < q + 2 && x < d && y < Times(d, nHead)
    requires from == HeadRow(g, q + 2, d, j, o, x) && to == FalconRow(g, q, d, j, o, x)
    ensures var r := FalconRegroup(t, nHead, g, d);
            r.Some? && r.value.shape == t.shape && At(r.value, [to, y]) == At(t, [from, y])
  {
    var qs, ks, vs := FalconIs(t, nHead, g, q, d, Times(d, nHead));
    if o < q {
      FoundQuery(t, g, q, d, Times(d, nHead), j, o, x, from, to, y, qs, ks, vs);
    } else {
      FoundHead(t, g, q, d, Times(d, nHead), j, o, x, from, to, y, qs, ks, vs);
    }
  }

  lemma FalconIs(t: Tensor, nHead: nat, g: nat, q: nat, d: nat, n: nat) returns (qs: Tensor, ks: Tensor, vs: Tensor)
    requires Valid(t) && g > 0 && nHead == Times(g, q) && t.shape == [HeadRows(g, q + 2, d), n] && n == Times(d, nHead)
    ensures AreParts(t, g, q, d, n, qs, ks, vs) && CatRows([qs, ks, vs]).Some?
    ensures CatRows([qs, ks, vs]).value.shape == t.shape
    ensures FalconRegroup(t, nHead, g, d) == CatRows([qs, ks, vs])
  {
    qs, ks, vs := FalconParts(t, nHead, g, q, d, n);
    AllRows(g, q, d);
    PartShapes(t, g, q, d, n, qs, ks, vs);
    CatThree(qs, ks, vs, HeadRows(g, q, d), HeadRows(g, 1, d), n);
    EvalReshaped(FalconExpr(nHead, g, d, t.shape).of, t, CatRows([qs, ks, vs]).value, t.shape);
  }

  ghost predicate AreParts(t: Tensor, g: nat, q: nat, d: nat, n: nat, qs: Tensor, ks: Tensor, vs: Tensor) {
    && IsPart(t, qs, g, q + 2, d, n, Full(q).positions, q)
    && IsPart(t, ks, g, q + 2, d, n, [q], 1) && IsPart(t, vs, g, q + 2, d, n, [q + 1], 1)
  }

  lemma PartShapes(t: Tensor, g: nat, q: nat, d: nat, n: nat, qs: Tensor, ks: Tensor, vs: Tensor)
    requires AreParts(t, g, q, d, n, qs, ks, vs)
    ensures Valid(qs) && Valid(ks) && Valid(vs)
    ensures qs.shape == [HeadRows(g, q, d), n] && ks.shape == vs.shape == [HeadRows(g, 1, d), n]
  {
  }

  lemma FoundQuery(t: Tensor, g: nat, q: nat, d: nat, n: nat, j: nat, o: nat, x: nat, from: nat, to: nat, y: nat,
                   qs: Tensor, ks: Tensor, vs: Tensor)
    requires j < g && o < q && x < d && y < n && AreParts(t, g, q, d, n, qs, ks, vs) && CatRows([qs, ks, vs]).Some?
    requires from == HeadRow(g, q + 2, d, j, o, x) && to == HeadRow(g, q, d, j, o, x)
    ensures At(CatRows([qs, ks, vs]).value, [to, y]) == At(t, [from, y])
  {
    PartShapes(t, g, q, d, n, qs, ks, vs);
    HeadRowBound(g, q, d, j, o, x);
    InFirst(qs, ks, vs, HeadRows(g, q, d), HeadRows(g, 1, d), n, to, y);
    QueryAt(t, qs, g, q, d, n, Full(q).positions, j, o, x, from, to, y);
  }

  lemma QueryAt(t: Tensor, qs: Tensor, g: nat, q: nat, d: nat, n: nat, p: seq<nat>,
                j: nat, o: nat, x: nat, from: nat, to: nat, y: nat)
    requires IsPart(t, qs, g, q + 2, d, n, p, q) && p == Full(q).positions && j < g && o < q && x < d && y < n
    requires from == HeadRow(g, q + 2, d, j, o, x) && to == HeadRow(g, q, d, j, o, x)
    ensures At(qs, [to, y]) == At(t, [from, y])
  {
    assert p[o] == o;
    PartAt(t, qs, g, q + 2, d, n, p, q, j, o, x, from, to, y);
  }

  lemma PartAt(t: Tensor, r: Tensor, g: nat, w: nat, d: nat, n: nat, p: seq<nat>, m: nat,
               j: nat, i: nat, x: nat, from: nat, to: nat, y: nat)
    requires IsPart(t, r, g, w, d, n, p, m) && j < g && i < m && x < d && y < n
    requires from == HeadRow(g, w, d, j, p[i], x) && to == HeadRow(g, m, d, j, i, x)
    ensures At(r, [to, y]) == At(t, [from, y])
  {
    assert At(r, [HeadRow(g, m, d, j, i, x), y]) == At(t, [HeadRow(g, w, d, j, p[i], x), y]);
  }

  lemma FoundHead(t: Tensor, g: nat, q: nat, d: nat, n: nat, j: nat, o: nat, x: nat, from: nat, to: nat, y: nat,
                  qs: Tensor, ks: Tensor, vs: Tensor)
    requires j < g && q <= o < q + 2 && x < d && y < n && AreParts(t, g, q, d, n, qs, ks, vs)
    requires CatRows([qs, ks, vs]).Some?
    requires from == HeadRow(g, q + 2, d, j, o, x) && to == FalconRow(g, q, d, j, o, x)
    ensures At(CatRows([qs, ks, vs]).value, [to, y]) == At(t, [from, y])
  {
    PartShapes(t, g, q, d, n, qs, ks, vs);
    HeadRowBound(g, 1, d, j, 0, x);
    var queries, others, row := HeadRows(g, q, d), HeadRows(g, 1, d), HeadRow(g, 1, d, j, 0, x);
    if o == q {
      InSecond(qs, ks, vs, queries, others, n, row, to, y);
      PartAt(t, ks, g, q + 2, d, n, [q], 1, j, 0, x, from, row, y);
    } else {
      InThird(qs, ks, vs, queries, others, n, row, to, y);
      PartAt(t, vs, g, q + 2, d, n, [q + 1], 1, j, 0, x, from, row, y);
    }
  }

  /** The group, head and row that end up at a row of the result. */
  ghost function FalconSource(g: nat, q: nat, d: nat, row: nat): (nat, nat, nat)
    requires row < HeadRows(g, q, d) + HeadRows(g, 1, d) + HeadRows(g, 1, d)
  {
    var queries, others := HeadRows(g, q, d), HeadRows(g, 1, d);
    if row < queries then
      var i := Unflat([g, q, d], row);
      (i[0], i[1], i[2])
    else
      var i := Unflat([g, 1, d], if row < queries + others then row - queries else row - queries - others);
      (i[0], if row < queries + others then q else q + 1, i[2])
  }

  lemma HeadOnce(g: nat, w: nat, d: nat, j: nat, o: nat, x: nat)
    requires j < g && o < w && x < d
    ensures HeadRow(g, w, d, j, o, x) < HeadRows(g, w, d)
    ensures Unflat([g, w, d], HeadRow(g, w, d, j, o, x)) == [j, o, x]
  {
    assert InRange([g, w, d], [j, o, x]);
    UnflatFlat([g, w, d], [j, o, x]);
  }

  /** No two rows go to one place. */
  lemma FalconRowOnce(g: nat, q: nat, d: nat, j: nat, o: nat, x: nat)
    requires j < g && o < q + 2 && x < d
    ensures FalconRow(g, q, d, j, o, x) < HeadRows(g, q, d) + HeadRows(g, 1, d) + HeadRows(g, 1, d) == HeadRows(g, q + 2, d)
    ensures FalconSource(g, q, d, FalconRow(g, q, d, j, o, x)) == (j, o, x)
  {
    AllRows(g, q, d);
    HeadOnce(g, 1, d, j, 0, x);
    if o < q {
      HeadOnce(g, q, d, j, o, x);
    }
  }

  lemma HeadAll(g: nat, w: nat, d: nat, row: nat)
    requires row < HeadRows(g, w, d)
    ensures var i := Unflat([g, w, d], row);
            i[0] < g && i[1] < w && i[2] < d && HeadRow(g, w, d, i[0], i[1], i[2]) == row
  {
    var i := Unflat([g, w, d], row);
    assert i == [i[0], i[1], i[2]];
    assert i[0] < [g, w, d][0] && i[1] < [g, w, d][1] && i[2] < [g, w, d][2];
  }

  /** Every place is taken. */
  lemma FalconRowAll(g: nat, q: nat, d: nat, row: nat)
    requires row < HeadRows(g, q, d) + HeadRows(g, 1, d) + HeadRows(g, 1, d)
    ensures var (j, o, x) := FalconSource(g, q, d, row); j < g && o < q + 2 && x < d && FalconRow(g, q, d, j, o, x) == row
  {
    var queries, others := HeadRows(g, q, d), HeadRows(g, 1, d);
    if row < queries {
      HeadAll(g, q, d, row);
    } else {
      HeadAll(g, 1, d, if row < queries + others then row - queries else row - queries - others);
    }
  }

  // ----- InternLM2

  /** The joint weights seen as groups of heads; all head counts as the converter computes them. */
  function InternView(numHeads: nat, numKvHeads: nat, hidden: nat): Expr
    requires 0 < numKvHeads <= numHeads
  {
    var perKv := Quotient(numHeads, numKvHeads);
    QuotientPositive(numHeads, numKvHeads);
    View(Quotient(numHeads, perKv), perKv + 2, Quotient(hidden, numHeads), hidden)
  }

  lemma QuotientPositive(a: nat, b: nat)
    requires 0 < b <= a
    ensures Quotient(a, b) > 0
  {
  }

  function InternQuery(numHeads: nat, numKvHeads: nat, hidden: nat): Expr
    requires 0 < numKvHeads <= numHeads
  {
    Reshaped(Select(InternView(numHeads, numKvHeads, hidden), [ALL, Slice(None, Some(Quotient(numHeads, numKvHeads)), 1)]), RowsFree(hidden))
  }

  /** One head of every group. */
  function InternHead(numHeads: nat, numKvHeads: nat, hidden: nat, head: int): Expr
    requires 0 < numKvHeads <= numHeads
  {
    Reshaped(Select(InternView(numHeads, numKvHeads, hidden), [ALL, Integer(head)]), RowsFree(hidden))
  }

  /** LlamaModel.permute applied to the value of an expression. */
  ghost function PermutedValue(e: Expr, t: Tensor, nHead: nat, nHeadKv: nat): Option<Tensor>
    requires Valid(t)
  {
    match EvalDense(e, t)
    case None => None
    case Some(w) => LlamaPermute(w, nHead, Some(nHeadKv))
  }

  datatype Qkv = Qkv(q: Option<Tensor>, k: Option<Tensor>, v: Option<Tensor>)

  ghost function InternSplit(qkv: Tensor, numHeads: nat, numKvHeads: nat, hidden: nat): Qkv
    requires Valid(qkv) && 0 < numKvHeads <= numHeads
  {
    Qkv(PermutedValue(InternQuery(numHeads, numKvHeads, hidden), qkv, numHeads, numHeads),
        PermutedValue(InternHead(numHeads, numKvHeads, hidden, -2), qkv, numHeads, numKvHeads),
        EvalDense(InternHead(numHeads, numKvHeads, hidden, -1), qkv))
  }

  /** All head counts divide evenly, and the joint weights have their size. */
  ghost predicate InternSizes(t: Tensor, numHeads: nat, g: nat, q: nat, d: nat, hidden: nat) {
    && Valid(t) && 0 < g <= numHeads && q > 0 && numHeads == Times(g, q) && hidden > 0 && Quotient(hidden, numHeads) == d
    && t.shape == [HeadRows(g, q + 2, d), hidden]
  }

  lemma InternViewIs(t: Tensor, numHeads: nat, g: nat, q: nat, d: nat, hidden: nat)
    requires InternSizes(t, numHeads, g, q, d, hidden)
    ensures InternView(numHeads, g, hidden) == View(g, q + 2, d, hidden) && Quotient(numHeads, g) == q
    ensures t.shape == [HeadRows(g, q + 2, d), hidden]
  {
    QuotientOf(q, g, 0);
    QuotientOf(g, q, 0);
    TimesSwap(g, q);
    RowsOf(g, q + 2, d, 0, 0, 0);
  }

  lemma InternItems(q: nat)
    ensures Resolve(Slice(None, Some(q), 1), q + 2) == Some(Full(q))
    ensures Resolve(Integer(-2), q + 2) == Some(One(q))
    ensures Resolve(Integer(-1), q + 2) == Some(One(q + 1))
  {
    AllIsFull(q);
  }

  /** The queries before they are permuted. */
  lemma InternQueries(t: Tensor, numHeads: nat, g: nat, q: nat, d: nat, hidden: nat)
    requires InternSizes(t, numHeads, g, q, d, hidden)
    ensures var e := EvalDense(InternQuery(numHeads, g, hidden), t);
            e.Some? && IsPart(t, e.value, g, q + 2, d, hidden, Full(q).positions, q)
  {
    InternViewIs(t, numHeads, g, q, d, hidden);
    InternItems(q);
    ManyRowsFree(g, q, d, hidden);
    PartMany(t, g, q + 2, d, hidden, Slice(None, Some(q), 1), Full(q).positions, RowsFree(hidden));
  }

  lemma ManyRowsFree(g: nat, w: nat, d: nat, n: nat)
    requires n > 0
    ensures Expanded(RowsFree(n), Count([g, w, d, n])) == Some([HeadRows(g, w, d), n])
  {
    ViewShape(g, w, d, n);
    FreeRows(HeadRows(g, w, d), n);
    FlatTwo(HeadRows(g, w, d), n, 0, 0);
  }

  lemma OneRowsFree(g: nat, d: nat, n: nat)
    requires n > 0
    ensures Expanded(RowsFree(n), Count([g, d, n])) == Some([HeadRows(g, 1, d), n])
  {
    MatrixCount(g, d, n);
    FreeRows(HeadRows(g, 1, d), n);
    FlatTwo(HeadRows(g, 1, d), n, 0, 0);
  }

  /** The keys before they are permuted, and the values. */
  lemma InternHeads(t: Tensor, numHeads: nat, g: nat, q: nat, d: nat, hidden: nat, o: nat)
    requires InternSizes(t, numHeads, g, q, d, hidden) && (o == q || o == q + 1)
    ensures var e := EvalDense(InternHead(numHeads, g, hidden, o - q - 2), t);
            e.Some? && IsPart(t, e.value, g, q + 2, d, hidden, [o], 1)
  {
    InternViewIs(t, numHeads, g, q, d, hidden);
    InternItems(q);
    OneRowsFree(g, d, hidden);
    PartOne(t, g, q + 2, d, hidden, Integer(o - q - 2), o, RowsFree(hidden));
  }

  /** The number of head `o` of group `j` among all heads, `q` to a group. */
  function HeadNumber(q: nat, j: nat, o: nat): nat {
    Times(j, q) + o
  }

  /**
   Where row `x` of head `o` of group `j` goes, within the part its head belongs to; `x` is row `k`
   of half `s` of the head.
   */
  function InternRow(g: nat, q: nat, d: nat, half: nat, j: nat, o: nat, s: nat, k: nat, x: nat): nat {
    if o < q then PairedRow(half, HeadNumber(q, j, o), s, k)
    else if o == q then PairedRow(half, j, s, k)
    else HeadRow(g, 1, d, j, 0, x)
  }

  function PartOf(parts: Qkv, q: nat, o: nat): Option<Tensor> {
    if o < q then parts.q else if o == q then parts.k else parts.v
  }

  lemma HalfBound(s: nat, k: nat, half: nat)
    requires s < 2 && k < half
    ensures Times(s, half) + k < 2 * half
  {
    TimesBound(s, 2, half, k);
    TimesIs(2, half);
  }

  lemma HeadIndex(g: nat, w: nat, d: nat, half: nat, j: nat, o: nat, s: nat, k: nat, i: nat, x: nat)
    requires j < g && o < w && d == 2 * half && x == Times(s, half) + k && i == HeadNumber(w, j, o)
    ensures i < Times(g, w) && HeadRows(g, w, d) == Times(Times(g, w), d)
    ensures HeadRow(g, w, d, j, o, x) == HalvedRow(half, i, s, k)
  {
    TimesBound(j, g, w, o);
    RowsOf(g, w, d, j, o, x);
  }

  lemma PermutedRow(w: Tensor, nHead: nat, nHeadKv: nat, d: nat, half: nat, n: nat, i: nat, s: nat, k: nat,
                    from: nat, to: nat, y: nat)
    requires Valid(w) && d == 2 * half && w.shape == [Times(nHeadKv, d), n]
    requires i < nHeadKv && s < 2 && k < half && y < n && from == HalvedRow(half, i, s, k) && to == PairedRow(half, i, s, k)
    ensures var r := LlamaPermute(w, nHead, Some(nHeadKv));
            r.Some? && r.value.shape == w.shape && At(r.value, [to, y]) == At(w, [from, y])
  {
    LlamaPermuteRow(w, nHead, Some(nHeadKv), half, i, s, k, [y]);
    LlamaPermuteBack(w, nHead, Some(nHeadKv));
    assert [to] + [y] == [to, y] && [from] + [y] == [from, y];
  }

  /** One row of a part after it is permuted. */
  lemma PermutedPart(t: Tensor, part: Tensor, nHead: nat, nHeadKv: nat, g: nat, w: nat, d: nat, half: nat, n: nat, p: seq<nat>, m: nat,
                     j: nat, i: nat, s: nat, k: nat, x: nat, from: nat, to: nat, y: nat)
    requires IsPart(t, part, g, w, d, n, p, m) && nHeadKv == Times(g, m) && d == 2 * half
    requires j < g && i < m && s < 2 && k < half && x == Times(s, half) + k && y < n
    requires from == HeadRow(g, w, d, j, p[i], x) && to == PairedRow(half, HeadNumber(m, j, i), s, k)
    ensures var r := LlamaPermute(part, nHead, Some(nHeadKv));
            r.Some? && r.value.shape == part.shape && At(r.value, [to, y]) == At(t, [from, y])
  {
    HalfBound(s, k, half);
    var mid, head := HeadRow(g, m, d, j, i, x), HeadNumber(m, j, i);
    HeadIndex(g, m, d, half, j, i, s, k, head, x);
    PermutedRow(part, nHead, nHeadKv, d, half, n, head, s, k, mid, to, y);
    PartAt(t, part, g, w, d, n, p, m, j, i, x, from, mid, y);
  }

  /** Every row of the joint weights is found at its place in the part its head belongs to. */
  lemma InternSplits(t: Tensor, numHeads: nat, g: nat, q: nat, d: nat, half: nat, hidden: nat,
                     j: nat, o: nat, s: nat, k: nat, x: nat, from: nat, to: nat, y: nat)
    requires InternSizes(t, numHeads, g, q, d, hidden) && d == 2 * half
    requires j < g && o < q + 2 && s < 2 && k < half && x == Times(s, half) + k && y < hidden
    requires from == HeadRow(g, q + 2, d, j, o, x) && to == InternRow(g, q, d, half, j, o, s, k, x)
    ensures var r := PartOf(InternSplit(t, numHeads, g, hidden), q, o);
            && r.Some? && r.value.shape == [HeadRows(g, if o < q then q else 1, d), hidden]
            && At(r.value, [to, y]) == At(t, [from, y])
  {
    if o < q {
      InternQueryRow(t, numHeads, g, q, d, half, hidden, j, o, s, k, x, from, to, y);
    } else {
      InternHeads(t, numHeads, g, q, d, hidden, o);
      var w := EvalDense(InternHead(numHeads, g, hidden, o - q - 2), t).value;
      InternHeadRow(t, w, numHeads, g, q, d, half, hidden, j, o, s, k, x, from, to, y);
    }
  }

  lemma InternQueryRow(t: Tensor, numHeads: nat, g: nat, q: nat, d: nat, half: nat, hidden: nat,
                       j: nat, o: nat, s: nat, k: nat, x: nat, from: nat, to: nat, y: nat)
    requires InternSizes(t, numHeads, g, q, d, hidden) && d == 2 * half
    requires j < g && o < q && s < 2 && k < half && x == Times(s, half) + k && y < hidden
    requires from == HeadRow(g, q + 2, d, j, o, x) && to == PairedRow(half, HeadNumber(q, j, o), s, k)
    ensures var r := InternSplit(t, numHeads, g, hidden).q;
            r.Some? && r.value.shape == [HeadRows(g, q, d), hidden] && At(r.value, [to, y]) == At(t, [from, y])
  {
    InternQueries(t, numHeads, g, q, d, hidden);
    QueryRow(t, EvalDense(InternQuery(numHeads, g, hidden), t).value, numHeads, g, q, d, half, hidden, Full(q).positions,
             j, o, s, k, x, from, to, y);
  }

  lemma QueryRow(t: Tensor, w: Tensor, numHeads: nat, g: nat, q: nat, d: nat, half: nat, n: nat, p: seq<nat>,
                 j: nat, o: nat, s: nat, k: nat, x: nat, from: nat, to: nat, y: nat)
    requires IsPart(t, w, g, q + 2, d, n, p, q) && p == Full(q).positions && numHeads == Times(g, q) && d == 2 * half
    requires j < g && o < q && s < 2 && k < half && x == Times(s, half) + k && y < n
    requires from == HeadRow(g, q + 2, d, j, o, x) && to == PairedRow(half, HeadNumber(q, j, o), s, k)
    ensures var r := LlamaPermute(w, numHeads, Some(numHeads));
            r.Some? && r.value.shape == [HeadRows(g, q, d), n] && At(r.value, [to, y]) == At(t, [from, y])
  {
    hide At, HeadRow, HeadRows, LlamaPermute, Times;
    assert p[o] == o;
    PermutedPart(t, w, numHeads, numHeads, g, q + 2, d, half, n, p, q, j, o, s, k, x, from, to, y);
  }

  lemma InternHeadRow(t: Tensor, w: Tensor, numHeads: nat, g: nat, q: nat, d: nat, half: nat, n: nat,
                      j: nat, o: nat, s: nat, k: nat, x: nat, from: nat, to: nat, y: nat)
    requires IsPart(t, w, g, q + 2, d, n, [o], 1) && q <= o < q + 2 && d == 2 * half
    requires j < g && s < 2 && k < half && x == Times(s, half) + k && y < n
    requires from == HeadRow(g, q + 2, d, j, o, x) && to == InternRow(g, q, d, half, j, o, s, k, x)
    ensures o == q ==>
              var r := LlamaPermute(w, numHeads, Some(g));
              r.Some? && r.value.shape == w.shape && At(r.value, [to, y]) == At(t, [from, y])
    ensures o != q ==> At(w, [to, y]) == At(t, [from, y])
  {
    HalfBound(s, k, half);
    TimesIs(g, 1);
    TimesIs(j, 1);
    if o == q {
      PermutedPart(t, w, numHeads, g, g, q + 2, d, half, n, [o], 1, j, 0, s, k, x, from, to, y);
    } else {
      PartAt(t, w, g, q + 2, d, n, [o], 1, j, 0, x, from, to, y);
    }
  }

  /** No two rows go to one place; the parts have as many rows together as the joint weights. */
  lemma InternRowOnce(g: nat, q: nat, d: nat, half: nat, j: nat, o: nat, s: nat, k: nat, x: nat,
                      j': nat, o': nat, s': nat, k': nat, x': nat)
    requires d == 2 * half && x == Times(s, half) + k && x' == Times(s', half) + k'
    requires j < g && o < q + 2 && s < 2 && k < half && j' < g && o' < q + 2 && s' < 2 && k' < half
    requires (o < q <==> o' < q) && (o == q <==> o' == q)
    requires InternRow(g, q, d, half, j, o, s, k, x) == InternRow(g, q, d, half, j', o', s', k', x')
    ensures j == j' && o == o' && s == s' && k == k'
    ensures HeadRows(g, q, d) + HeadRows(g, 1, d) + HeadRows(g, 1, d) == HeadRows(g, q + 2, d)
  {
    AllRows(g, q, d);
    if o < q {
      TimesBound(j, g, q, o);
      TimesBound(j', g, q, o');
      PairOnce(Times(g, q), half, HeadNumber(q, j, o), s, k, HeadNumber(q, j', o'), s', k');
      SameQuotient(j, j', q, o, o');
    } else if o == q {
      PairOnce(g, half, j, s, k, j', s', k');
    } else {
      HalfBound(s, k, half);
      HalfBound(s', k', half);
      HeadRowInjective(g, d, j, x, j', x');
      SameQuotient(s, s', half, k, k');
    }
  }

  lemma HeadRowInjective(g: nat, d: nat, j: nat, x: nat, j': nat, x': nat)
    requires j < g && x < d && j' < g && x' < d && HeadRow(g, 1, d, j, 0, x) == HeadRow(g, 1, d, j', 0, x')
    ensures j == j' && x == x'
  {
    HeadOnce(g, 1, d, j, 0, x);
    HeadOnce(g, 1, d, j', 0, x');
    assert [j, 0, x][0] == j && [j, 0, x][2] == x;
  }

  lemma PairOnce(heads: nat, half: nat, i: nat, s: nat, k: nat, i': nat, s': nat, k': nat)
    requires i < heads && s < 2 && k < half && i' < heads && s' < 2 && k' < half
    requires PairedRow(half, i, s, k) == PairedRow(half, i', s', k')
    ensures i == i' && s == s' && k == k'
  {
    RowPositions(heads, half, i, s, k);
    RowPositions(heads, half, i', s', k');
    FlatOnce([heads, half, 2], [i, k, s], [i', k', s']);
    assert [i, k, s][0] == i && [i, k, s][1] == k && [i, k, s][2] == s;
  }

  // ----- the same on a LoRA pair

  /** With two whole dimensions behind it, a tuple does not end in two integers. */
  lemma WholeTail(v: Lora, items: seq<Item>)
    requires Adapter(v) && |items| + 2 <= |v.b.shape| && Selections(v, items).Some?
    ensures !TwoIntegers(Selections(v, items).value)
  {
    var padded := Padded(items, |v.b.shape|);
    assert Last(padded) == ALL && Last(Front(padded)) == ALL;
    var sels := Selections(v, items).value;
    assert Last(sels).Many?;
  }

  lemma ViewRank(l: Lora, g: nat, w: nat, d: nat, n: nat)
    requires Adapter(l) && EvalLora(View(g, w, d, n), l).Some?
    ensures |EvalLora(View(g, w, d, n), l).value.b.shape| == 4
  {
    assert EvalLora(Whole, l) == Some(l);
  }

  /** No dimension is open, or only the first. */
  lemma NoneFree(shape: Shape)
    ensures OneFree(shape)
  {
  }

  lemma FirstFree(n: nat)
    ensures OneFree(RowsFree(n))
  {
  }

  lemma SelectedKeeps(l: Lora, g: nat, w: nat, d: nat, n: nat, item: Item, shape: seq<int>)
    requires Adapter(l) && OneFree(shape)
    ensures KeepsMatrices(Reshaped(Select(View(g, w, d, n), [ALL, item]), shape), l)
  {
    var e := View(g, w, d, n);
    assert KeepsMatrices(e, l);
    if EvalLora(e, l).Some? && Selections(EvalLora(e, l).value, [ALL, item]).Some? {
      ViewRank(l, g, w, d, n);
      WholeTail(EvalLora(e, l).value, [ALL, item]);
    }
    assert KeepsMatrices(Select(e, [ALL, item]), l);
  }

  /** What the program makes of a pair stands for what it makes of the tensor. */
  lemma FalconOnPair(l: Lora, nHead: nat, nHeadKv: nat, headDim: nat)
    requires Adapter(l) && LeadsOne(l) && nHeadKv > 0
    requires EvalLora(FalconExpr(nHead, nHeadKv, headDim, ShapeOf(l)), l).Some?
    ensures FalconRegroup(Dense(l), nHead, nHeadKv, headDim)
            == Some(Dense(EvalLora(FalconExpr(nHead, nHeadKv, headDim, ShapeOf(l)), l).value))
  {
    FalconKeepsAll(l, nHead, nHeadKv, headDim, ShapeOf(l));
    EvalSimulates(FalconExpr(nHead, nHeadKv, headDim, ShapeOf(l)), l);
  }

  lemma FalconKeepsAll(l: Lora, nHead: nat, nHeadKv: nat, d: nat, shape: Shape)
    requires Adapter(l) && nHeadKv > 0
    ensures KeepsMatrices(FalconExpr(nHead, nHeadKv, d, shape), l)
  {
    var n, w := Times(d, nHead), Quotient(nHead, nHeadKv) + 2;
    SelectedKeeps(l, nHeadKv, w, d, n, Slice(None, Some(-2), 1), [Times(nHead, d), n]);
    SelectedKeeps(l, nHeadKv, w, d, n, Positions([-2]), [Times(nHeadKv, d), n]);
    SelectedKeeps(l, nHeadKv, w, d, n, Positions([-1]), [Times(nHeadKv, d), n]);
    var e := FalconExpr(nHead, nHeadKv, d, shape);
    FalconKeeps(l, e.of.parts[0], e.of.parts[1], e.of.parts[2]);
  }

  lemma FalconKeeps(l: Lora, e0: Expr, e1: Expr, e2: Expr)
    requires Adapter(l) && KeepsMatrices(e0, l) && KeepsMatrices(e1, l) && KeepsMatrices(e2, l)
    requires e0.Reshaped? && |e0.shape| == 2
    ensures KeepsMatrices(Concatenated([e0, e1, e2]), l)
  {
    var vs := EvalLoras([e0, e1, e2], l);
    if vs.Some? {
      assert vs.value[0] == EvalLora(e0, l).value;
      assert EvalLora(e0, l) == LoraReshape(EvalLora(e0.of, l).value, e0.shape);
    }
  }

  lemma InternOnPair(l: Lora, numHeads: nat, numKvHeads: nat, hidden: nat, head: int)
    requires Adapter(l) && LeadsOne(l) && 0 < numKvHeads <= numHeads
    ensures var e := InternQuery(numHeads, numKvHeads, hidden);
            EvalLora(e, l).Some? ==> LeadsOne(EvalLora(e, l).value) && EvalDense(e, Dense(l)) == Some(Dense(EvalLora(e, l).value))
    ensures var e := InternHead(numHeads, numKvHeads, hidden, head);
            EvalLora(e, l).Some? ==> LeadsOne(EvalLora(e, l).value) && EvalDense(e, Dense(l)) == Some(Dense(EvalLora(e, l).value))
  {
    hide OneFree, RowsFree, LeadsOne, Dense;
    var perKv := Quotient(numHeads, numKvHeads);
    QuotientPositive(numHeads, numKvHeads);
    var g, w, d := Quotient(numHeads, perKv), perKv + 2, Quotient(hidden, numHeads);
    FirstFree(hidden);
    SelectedKeeps(l, g, w, d, hidden, Slice(None, Some(perKv), 1), RowsFree(hidden));
    SelectedKeeps(l, g, w, d, hidden, Integer(head), RowsFree(hidden));
    if EvalLora(InternQuery(numHeads, numKvHeads, hidden), l).Some? {
      EvalSimulates(InternQuery(numHeads, numKvHeads, hidden), l);
    }
    if EvalLora(InternHead(numHeads, numKvHeads, hidden, head), l).Some? {
      EvalSimulates(InternHead(numHeads, numKvHeads, hidden, head), l);
    }
  }

  lemma PermuteOnPair(l: Lora, nHead: nat, nHeadKv: Option<nat>)
    requires Adapter(l) && LeadsOne(l) && HeadsFor(nHead, nHeadKv) > 0
    requires EvalLora(PermuteExpr(Whole, ShapeOf(l), HeadsFor(nHead, nHeadKv)), l).Some?
    ensures LlamaPermute(Dense(l), nHead, nHeadKv)
            == Some(Dense(EvalLora(PermuteExpr(Whole, ShapeOf(l), HeadsFor(nHead, nHeadKv)), l).value))
  {
    hide OneFree, LeadsOne, Dense, EvalDense, EvalLora;
    var e := PermuteExpr(Whole, ShapeOf(l), HeadsFor(nHead, nHeadKv));
    NoneFree(ShapeOf(l));
    NoneFree(e.of.of.shape);
    assert KeepsMatrices(e.of.of, l);
    assert KeepsMatrices(e.of, l);
    EvalSimulates(e, l);
  }
}

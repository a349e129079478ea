/**
 Rearrangements of the rows of attention weights (LlamaModel.permute, and the regrouping of joint
 QKV weights in the Falcon and InternLM2 converters in convert_hf_to_gguf.py), as expressions that
 apply to dense tensors and to LoRA pairs alike.
 */
module RowLayouts {
  import opened Base
  import opened Arithmetic
  import opened Tensors
  import opened Lora
  import opened LoraItems
  import opened LoraExpressions

  // ----- splitting and joining leading dimensions

  lemma {:induction false} FlatAppend(lead: Shape, rest: Shape, i: Index, idx: Index)
    requires |i| == |lead| && |idx| == |rest|
    ensures Flat(lead + rest, i + idx) == Times(Flat(lead, i), Count(rest)) + Flat(rest, idx)
    ensures Count(lead + rest) == Times(Count(lead), Count(rest))
  {
    if rest == [] {
      assert lead + rest == lead && i + idx == i;
      TimesIs(Flat(lead, i), 1);
      TimesIs(Count(lead), 1);
    } else {
      var front, n, x, j := Front(rest), Last(rest), Front(idx), Last(idx);
      assert lead + rest == (lead + front) + [n] && i + idx == (i + x) + [j];
      FlatAppend(lead, front, i, x);
      FlatSnoc(lead + front, n, i + x, j);
      Combine(Flat(lead + front, i + x), Flat(lead, i), Count(front), Flat(front, x), n, j);
      Combine(Count(lead + front), Count(lead), Count(front), 0, n, 0);
    }
  }

  lemma InRangeAppend(lead: Shape, rest: Shape, i: Index, idx: Index)
    requires |i| == |lead|
    ensures InRange(lead + rest, i + idx) <==> InRange(lead, i) && InRange(rest, idx)
  {
    if InRange(lead + rest, i + idx) {
      forall k | 0 <= k < |lead|
        ensures i[k] < lead[k]
      {
        assert (i + idx)[k] < (lead + rest)[k];
      }
      forall k | 0 <= k < |rest|
        ensures idx[k] < rest[k]
      {
        assert (i + idx)[|lead| + k] < (lead + rest)[|lead| + k];
      }
    }
  }

  lemma AppendAt(t: Tensor, lead: Shape, rest: Shape, i: Index, idx: Index)
    requires Valid(t) && t.shape == lead + rest && InRange(lead, i) && InRange(rest, idx)
    ensures At(t, i + idx) == BlockAt(t.data, Count(rest), Flat(lead, i), Flat(rest, idx))
  {
    hide Count, Flat;
    FlatAppend(lead, rest, i, idx);
    InRangeAppend(lead, rest, i, idx);
    FlatBound(lead + rest, i + idx);
  }

  /** Regrouping the leading dimensions keeps the row-major position. */
  lemma RegroupedAt(t: Tensor, u: Tensor, lead: Shape, newLead: Shape, rest: Shape, i: Index, newI: Index, idx: Index)
    requires Valid(t) && Valid(u) && u.data == t.data && t.shape == lead + rest && u.shape == newLead + rest
    requires InRange(lead, i) && InRange(newLead, newI) && InRange(rest, idx) && Flat(lead, i) == Flat(newLead, newI)
    ensures At(u, newI + idx) == At(t, i + idx)
  {
    AppendAt(t, lead, rest, i, idx);
    AppendAt(u, newLead, rest, newI, idx);
  }

  lemma FlatOne(a: nat, i: nat)
    ensures Flat([a], [i]) == i && Count([a]) == a
  {
    assert Front([a]) == [] && Front([i]) == [];
    assert Flat([], []) == 0 && Count([]) == 1;
    assert Times(1, a) == Times(0, a) + a;
  }

  lemma FlatTwo(a: nat, b: nat, i: nat, j: nat)
    ensures Flat([a, b], [i, j]) == Times(i, b) + j && Count([a, b]) == Times(a, b)
  {
    OfTwo([a, b], [i, j]);
  }

  lemma FlatThree(a: nat, b: nat, c: nat, i: nat, j: nat, k: nat)
    ensures Flat([a, b, c], [i, j, k]) == Times(Times(i, b) + j, c) + k && Count([a, b, c]) == Times(Times(a, b), c)
  {
    OfThree([a, b, c], [i, j, k]);
  }

  lemma OfTwo(shape: Shape, idx: Index)
    requires |shape| == 2 == |idx|
    ensures Flat(shape, idx) == Times(idx[0], shape[1]) + idx[1] && Count(shape) == Times(shape[0], shape[1])
  {
    FlatOne(shape[0], idx[0]);
    assert Front(shape) == [shape[0]] && Front(idx) == [idx[0]];
  }

  lemma OfThree(shape: Shape, idx: Index)
    requires |shape| == 3 == |idx|
    ensures Flat(shape, idx) == Times(Times(idx[0], shape[1]) + idx[1], shape[2]) + idx[2]
    ensures Count(shape) == Times(Times(shape[0], shape[1]), shape[2])
  {
    OfTwo(Front(shape), Front(idx));
  }

  lemma NatShape(shape: Shape, count: nat)
    ensures Expanded(shape, count) == Some(shape)
  {
    var s: seq<int> := shape;
    assert forall k :: 0 <= k < |s| ==> s[k] >= 0;
    assert Expanded(s, count).value == shape;
  }

  /** The shape (-1, n). */
  function RowsFree(n: int): seq<int> {
    [-1, n]
  }

  lemma FreeRows(rows: nat, n: nat)
    requires n > 0
    ensures Expanded(RowsFree(n), Times(rows, n)) == Some([rows, n])
  {
    FreeProduct(n);
    TimesIs(rows, n);
    DivMod(rows, n, 0);
    var shape := RowsFree(n);
    assert shape[0] == -1 && -1 in shape;
    assert Expanded(shape, Times(rows, n)).value == [rows, n];
  }

  lemma FreeProduct(n: nat)
    ensures Known(RowsFree(n)) == n
  {
    var front: seq<int> := [-1];
    assert Front(RowsFree(n)) == front && Front(front) == [];
    assert Known(front) == 1;
  }

  // ----- LlamaModel.permute

  /** The number of heads that `permute` works with. */
  function HeadsFor(nHead: nat, nHeadKv: Option<nat>): nat {
    if nHeadKv.Some? && nHead != nHeadKv.value then nHeadKv.value else nHead
  }

  /** The rearrangement of a tensor of the given shape. */
  function PermuteExpr(of: Expr, shape: Shape, heads: nat): Expr
    requires shape != [] && heads > 0
  {
    Reshaped(Transposed(Reshaped(of, [heads, 2, Quotient(shape[0], heads) / 2] + shape[1..]), 1, 2), shape)
  }

  ghost function LlamaPermute(weights: Tensor, nHead: nat, nHeadKv: Option<nat>): Option<Tensor>
    requires Valid(weights)
  {
    if weights.shape == [] || HeadsFor(nHead, nHeadKv) == 0 then None
    else EvalDense(PermuteExpr(Whole, weights.shape, HeadsFor(nHead, nHeadKv)), weights)
  }

  /** The permutation the other way: the same steps with the middle dimensions exchanged. */
  ghost function Unpermute(weights: Tensor, heads: nat, half: nat): Option<Tensor>
    requires Valid(weights) && weights.shape != []
  {
    var split := Reshaped(Whole, [heads, half, 2] + weights.shape[1..]);
    EvalDense(Reshaped(Transposed(split, 1, 2), weights.shape), weights)
  }

  /** Dimensions 1 and 2 exchanged. */
  function Middle(n: nat): seq<nat> {
    seq(n, k => if k == 1 then 2 else if k == 2 then 1 else k)
  }

  lemma MiddlePermutes(n: nat)
    requires n >= 3
    ensures Exchanged(n, 1, 2).Some? && Dimensions(Exchanged(n, 1, 2).value, n) == Some(Middle(n))
    ensures IsPermutation(Middle(n), n)
  {
    assert Dimensions(Exchanged(n, 1, 2).value, n).value == Middle(n);
    forall d | 0 <= d < n
      ensures d in Middle(n)
    {
      assert Middle(n)[if d == 1 then 2 else if d == 2 then 1 else d] == d;
    }
  }

  lemma MiddleUnpermuted(i: nat, j: nat, k: nat, idx: Index)
    requires IsPermutation(Middle(|idx| + 3), |idx| + 3)
    ensures Unpermuted(Middle(|idx| + 3), [i, j, k] + idx) == [i, k, j] + idx
  {
    var dims := Middle(|idx| + 3);
    var u := Unpermuted(dims, [i, j, k] + idx);
    forall d | 0 <= d < |idx| + 3
      ensures u[d] == ([i, k, j] + idx)[d]
    {
      assert dims[PositionOf(dims, d)] == d;
    }
  }

  /** Exchanging the two middle dimensions of a tensor. */
  ghost function SwapMiddle(t: Tensor): (r: Tensor)
    requires |t.shape| >= 3
    ensures IsPermuted(t, Middle(|t.shape|), r)
  {
    MiddlePermutes(|t.shape|);
    Permute(t, Middle(|t.shape|)).value
  }

  lemma SwapMiddleAt(t: Tensor, a: nat, b: nat, c: nat, rest: Shape, i: nat, j: nat, k: nat, idx: Index)
    requires t.shape == [a, b, c] + rest && i < a && j < b && k < c && InRange(rest, idx)
    ensures SwapMiddle(t).shape == [a, c, b] + rest
    ensures At(SwapMiddle(t), [i, k, j] + idx) == At(t, [i, j, k] + idx)
  {
    SwapMiddleShape(t, a, b, c, rest);
    InRangeAppend([a, c, b], rest, [i, k, j], idx);
    MiddleUnpermuted(i, k, j, idx);
  }

  lemma SwapMiddleShape(t: Tensor, a: nat, b: nat, c: nat, rest: Shape)
    requires t.shape == [a, b, c] + rest
    ensures SwapMiddle(t).shape == [a, c, b] + rest
  {
  }

  lemma SwapMiddleTwice(t: Tensor)
    requires Valid(t) && |t.shape| >= 3
    ensures SwapMiddle(SwapMiddle(t)) == t
  {
    var a, b, c, rest := t.shape[0], t.shape[1], t.shape[2], t.shape[3..];
    assert t.shape == [a, b, c] + rest;
    SwapMiddleShape(t, a, b, c, rest);
    SwapMiddleShape(SwapMiddle(t), a, c, b, rest);
    forall idx | InRange(t.shape, idx)
      ensures At(SwapMiddle(SwapMiddle(t)), idx) == At(t, idx)
    {
      SwapMiddleTwiceAt(t, a, b, c, rest, idx[0], idx[1], idx[2], idx[3..]);
      assert idx == [idx[0], idx[1], idx[2]] + idx[3..];
    }
    Extensional(SwapMiddle(SwapMiddle(t)), t);
  }

  lemma SwapMiddleTwiceAt(t: Tensor, a: nat, b: nat, c: nat, rest: Shape, i: nat, j: nat, k: nat, x: Index)
    requires t.shape == [a, b, c] + rest && InRange(t.shape, [i, j, k] + x)
    ensures |SwapMiddle(t).shape| == |t.shape|
    ensures At(SwapMiddle(SwapMiddle(t)), [i, j, k] + x) == At(t, [i, j, k] + x)
  {
    InRangeAppend([a, b, c], rest, [i, j, k], x);
    assert i < [a, b, c][0] && j < [a, b, c][1] && k < [a, b, c][2];
    SwapMiddleAt(t, a, b, c, rest, i, j, k, x);
    SwapMiddleAt(SwapMiddle(t), a, c, b, rest, i, k, j, x);
  }

  /** Splitting the first dimension in three, exchanging the middle two, and joining again. */
  ghost function Exchange(t: Tensor, a: nat, b: nat, c: nat): Option<Tensor>
    requires Valid(t) && t.shape != []
  {
    match Reshape(t, [a, b, c] + t.shape[1..])
    case None => None
    case Some(u) => Reshape(SwapMiddle(u), t.shape)
  }

  lemma EvalReshaped(of: Expr, t: Tensor, w: Tensor, shape: Shape)
    requires Valid(t) && EvalDense(of, t) == Some(w)
    ensures EvalDense(Reshaped(of, shape), t) == Reshape(w, shape)
  {
    NatShape(shape, Count(w.shape));
  }

  lemma EvalSwapped(of: Expr, t: Tensor, u: Tensor)
    requires Valid(t) && EvalDense(of, t) == Some(u) && |u.shape| >= 3
    ensures EvalDense(Transposed(of, 1, 2), t) == Some(SwapMiddle(u))
  {
    hide Dimensions, Exchanged, IsPermuted, Middle;
    MiddlePermutes(|u.shape|);
  }

  lemma EvalFails(of: Expr, t: Tensor, shape: seq<int>)
    requires Valid(t) && EvalDense(of, t) == None
    ensures EvalDense(Reshaped(Transposed(of, 1, 2), shape), t) == None
  {
    assert EvalDense(Transposed(of, 1, 2), t) == None;
  }

  lemma ExchangeExpr(of: Expr, t: Tensor, w: Tensor, a: nat, b: nat, c: nat)
    requires Valid(t) && EvalDense(of, t) == Some(w) && w.shape != []
    ensures EvalDense(Reshaped(Transposed(Reshaped(of, [a, b, c] + w.shape[1..]), 1, 2), w.shape), t)
            == Exchange(w, a, b, c)
  {
    var split: Shape := [a, b, c] + w.shape[1..];
    EvalReshaped(of, t, w, split);
    if Reshape(w, split).Some? {
      var u := Reshape(w, split).value;
      EvalSwapped(Reshaped(of, split), t, u);
      EvalReshaped(Transposed(Reshaped(of, split), 1, 2), t, SwapMiddle(u), w.shape);
    } else {
      EvalFails(Reshaped(of, split), t, w.shape);
    }
  }

  lemma ExchangeSome(t: Tensor, a: nat, b: nat, c: nat)
    requires Valid(t) && t.shape != []
    ensures Exchange(t, a, b, c).Some? <==> Count([a, b, c]) == t.shape[0] || Count(t.shape[1..]) == 0
    ensures Exchange(t, a, b, c).Some? ==> Valid(Exchange(t, a, b, c).value)
  {
    var rest := t.shape[1..];
    SplitCount(t, a, b, c, t.shape[0], rest);
    var split := [a, b, c] + rest;
    if Reshape(t, split).Some? {
      var u := Reshape(t, split).value;
      SwapMiddleShape(u, a, b, c, rest);
      FlatAppend([a, b, c], rest, [0, 0, 0], Origin(|rest|));
      FlatAppend([a, c, b], rest, [0, 0, 0], Origin(|rest|));
      SameCount(a, b, c);
    }
  }

  lemma SplitCount(t: Tensor, a: nat, b: nat, c: nat, rows: nat, rest: Shape)
    requires Valid(t) && t.shape != [] && rows == t.shape[0] && rest == t.shape[1..]
    ensures Count([a, b, c] + rest) == Count(t.shape) <==> Count([a, b, c]) == rows || Count(rest) == 0
  {
    assert t.shape == [rows] + rest;
    FlatAppend([rows], rest, [0], Origin(|rest|));
    FlatAppend([a, b, c], rest, [0, 0, 0], Origin(|rest|));
    FlatOne(rows, 0);
    TimesIs(rows, 0);
    TimesIs(Count([a, b, c]), 0);
    if Count(rest) > 0 && Times(Count([a, b, c]), Count(rest)) == Times(rows, Count(rest)) {
      TimesCancel(Count([a, b, c]), rows, Count(rest));
    }
  }

  lemma SameCount(a: nat, b: nat, c: nat)
    ensures Count([a, b, c]) == Count([a, c, b])
  {
    FlatThree(a, b, c, 0, 0, 0);
    FlatThree(a, c, b, 0, 0, 0);
    TimesTimes(a, b, c);
    TimesTimes(a, c, b);
    TimesSwap(b, c);
  }

  /** Where row `m` of `a` groups of `b` runs of `c` rows goes. */
  ghost function Swapped(a: nat, b: nat, c: nat, m: nat): nat
    requires m < Count([a, b, c])
  {
    var i := Unflat([a, b, c], m);
    Flat([a, c, b], [i[0], i[2], i[1]])
  }

  lemma SwappedAt(a: nat, b: nat, c: nat, i: nat, j: nat, k: nat)
    requires i < a && j < b && k < c
    ensures Flat([a, b, c], [i, j, k]) < Count([a, b, c])
    ensures Swapped(a, b, c, Flat([a, b, c], [i, j, k])) == Flat([a, c, b], [i, k, j])
  {
    assert InRange([a, b, c], [i, j, k]);
    UnflatFlat([a, b, c], [i, j, k]);
  }

  lemma SplitRow(a: nat, b: nat, c: nat, m: nat) returns (i: nat, j: nat, k: nat)
    requires m < Count([a, b, c])
    ensures i < a && j < b && k < c && m == Flat([a, b, c], [i, j, k])
  {
    var idx := Unflat([a, b, c], m);
    i, j, k := idx[0], idx[1], idx[2];
    assert idx == [i, j, k];
    assert InRange([a, b, c], idx) && idx[0] < [a, b, c][0] && idx[1] < [a, b, c][1] && idx[2] < [a, b, c][2];
  }

  /** The rows move by a bijection, which the opposite exchange undoes. */
  lemma SwappedBack(a: nat, b: nat, c: nat, m: nat)
    requires m < Count([a, b, c])
    ensures Count([a, c, b]) == Count([a, b, c]) && Swapped(a, b, c, m) < Count([a, b, c])
    ensures Swapped(a, c, b, Swapped(a, b, c, m)) == m
  {
    var i, j, k := SplitRow(a, b, c, m);
    SwappedAt(a, b, c, i, j, k);
    SwappedAt(a, c, b, i, k, j);
    SameCount(a, b, c);
  }

  lemma ExchangeAt(t: Tensor, a: nat, b: nat, c: nat, r: Tensor, m: nat, idx: Index)
    requires Valid(t) && t.shape != [] && t.shape[0] == Count([a, b, c]) && Exchange(t, a, b, c) == Some(r)
    requires m < Count([a, b, c]) && InRange(t.shape[1..], idx)
    ensures At(r, [Swapped(a, b, c, m)] + idx) == At(t, [m] + idx)
  {
    var i, j, k := SplitRow(a, b, c, m);
    SwappedAt(a, b, c, i, j, k);
    var rest := t.shape[1..];
    assert t.shape == [Count([a, b, c])] + rest;
    ExchangedRow(t, Reshape(t, [a, b, c] + rest).value, r, a, b, c, rest, i, j, k, idx);
  }

  lemma ExchangedRow(t: Tensor, u: Tensor, r: Tensor, a: nat, b: nat, c: nat, rest: Shape,
                     i: nat, j: nat, k: nat, idx: Index)
    requires Valid(t) && t.shape == [Count([a, b, c])] + rest
    requires Reshape(t, [a, b, c] + rest) == Some(u) && Reshape(SwapMiddle(u), t.shape) == Some(r)
    requires i < a && j < b && k < c && InRange(rest, idx)
    ensures At(r, [Flat([a, c, b], [i, k, j])] + idx) == At(t, [Flat([a, b, c], [i, j, k])] + idx)
  {
    var rows, m, n := Count([a, b, c]), Flat([a, b, c], [i, j, k]), Flat([a, c, b], [i, k, j]);
    FlatBound([a, b, c], [i, j, k]);
    FlatBound([a, c, b], [i, k, j]);
    SameCount(a, b, c);
    FlatOne(rows, m);
    FlatOne(rows, n);
    RegroupedAt(t, u, [rows], [a, b, c], rest, [m], [i, j, k], idx);
    SwapMiddleAt(u, a, b, c, rest, i, j, k, idx);
    RegroupedAt(SwapMiddle(u), r, [a, c, b], [rows], rest, [i, k, j], [n], idx);
  }

  /** Exchanging back. */
  lemma ExchangeBack(t: Tensor, a: nat, b: nat, c: nat, r: Tensor)
    requires Valid(t) && t.shape != [] && Exchange(t, a, b, c) == Some(r)
    ensures Valid(r) && r.shape == t.shape && Exchange(r, a, c, b) == Some(t)
  {
    ExchangeSome(t, a, b, c);
    var rest := t.shape[1..];
    var u := Reshape(t, [a, b, c] + rest).value;
    SwapMiddleShape(u, a, b, c, rest);
    assert Reshape(r, [a, c, b] + rest) == Some(SwapMiddle(u));
    SwapMiddleTwice(u);
  }

  /** The rows of half a head, as the program computes them. */
  function HalfHead(rows: nat, heads: nat): nat
    requires heads > 0
  {
    Quotient(rows, heads) / 2
  }

  /**
   `permute` accepts weights exactly when their rows divide evenly over two halves of all heads, or
   there is no data, and the opposite permutation gives the weights back.
   */
  lemma LlamaPermuteBack(weights: Tensor, nHead: nat, nHeadKv: Option<nat>)
    requires Valid(weights) && weights.shape != [] && HeadsFor(nHead, nHeadKv) > 0
    ensures var heads := HeadsFor(nHead, nHeadKv);
            var half, r := HalfHead(weights.shape[0], heads), LlamaPermute(weights, nHead, nHeadKv);
            && (r.Some? <==> weights.shape[0] == Times(heads, 2 * half) || Count(weights.shape[1..]) == 0)
            && (r.Some? ==> Valid(r.value) && r.value.shape == weights.shape
                            && Unpermute(r.value, heads, half) == Some(weights))
  {
    var heads := HeadsFor(nHead, nHeadKv);
    var half := HalfHead(weights.shape[0], heads);
    ExchangeExpr(Whole, weights, weights, heads, 2, half);
    ExchangeSome(weights, heads, 2, half);
    RowPositions(heads, half, 0, 0, 0);
    if LlamaPermute(weights, nHead, nHeadKv).Some? {
      var r := LlamaPermute(weights, nHead, nHeadKv).value;
      ExchangeBack(weights, heads, 2, half, r);
      ExchangeExpr(Whole, r, r, heads, half, 2);
    }
  }

  lemma HalfHeadOf(heads: nat, half: nat)
    requires heads > 0
    ensures HalfHead(Times(heads, 2 * half), heads) == half
  {
    QuotientOf(2 * half, heads, 0);
    TimesSwap(heads, 2 * half);
  }

  lemma PermuteIsExchange(weights: Tensor, nHead: nat, nHeadKv: Option<nat>, heads: nat, half: nat)
    requires Valid(weights) && weights.shape != [] && heads == HeadsFor(nHead, nHeadKv) > 0
    requires weights.shape[0] == Times(heads, 2 * half)
    ensures weights.shape[0] == Count([heads, 2, half])
    ensures Exchange(weights, heads, 2, half).Some?
    ensures LlamaPermute(weights, nHead, nHeadKv) == Exchange(weights, heads, 2, half)
  {
    HalfHeadOf(heads, half);
    RowPositions(heads, half, 0, 0, 0);
    ExchangeExpr(Whole, weights, weights, heads, 2, half);
    ExchangeSome(weights, heads, 2, half);
  }

  /** Row `k` of half `s` of head `i`. */
  function HalvedRow(half: nat, i: nat, s: nat, k: nat): nat {
    Times(i, 2 * half) + Times(s, half) + k
  }

  /** Row `s` of pair `k` of head `i`. */
  function PairedRow(half: nat, i: nat, s: nat, k: nat): nat {
    Times(i, 2 * half) + 2 * k + s
  }

  /** `permute` moves row `k` of half `s` of a head to row `s` of pair `k` of the head. */
  lemma LlamaPermuteRow(weights: Tensor, nHead: nat, nHeadKv: Option<nat>, half: nat, i: nat, s: nat, k: nat, idx: Index)
    requires Valid(weights) && weights.shape != [] && weights.shape[0] == Times(HeadsFor(nHead, nHeadKv), 2 * half)
    requires i < HeadsFor(nHead, nHeadKv) && s < 2 && k < half && InRange(weights.shape[1..], idx)
    ensures var r := LlamaPermute(weights, nHead, nHeadKv);
            r.Some? && At(r.value, [PairedRow(half, i, s, k)] + idx) == At(weights, [HalvedRow(half, i, s, k)] + idx)
  {
    var heads := HeadsFor(nHead, nHeadKv);
    PermuteIsExchange(weights, nHead, nHeadKv, heads, half);
    RowPositions(heads, half, i, s, k);
    ExchangedPair(weights, heads, half, Exchange(weights, heads, 2, half).value, i, s, k,
                  HalvedRow(half, i, s, k), PairedRow(half, i, s, k), idx);
  }

  lemma ExchangedPair(t: Tensor, heads: nat, half: nat, r: Tensor, i: nat, s: nat, k: nat, from: nat, to: nat, idx: Index)
    requires Valid(t) && t.shape != [] && t.shape[0] == Count([heads, 2, half]) && Exchange(t, heads, 2, half) == Some(r)
    requires i < heads && s < 2 && k < half && InRange(t.shape[1..], idx)
    requires from == Flat([heads, 2, half], [i, s, k]) && to == Flat([heads, half, 2], [i, k, s])
    ensures At(r, [to] + idx) == At(t, [from] + idx)
  {
    SwappedAt(heads, 2, half, i, s, k);
    ExchangeAt(t, heads, 2, half, r, from, idx);
  }

  lemma Nested(a: nat, b: nat, c: nat, d: nat, i: nat, j: nat, k: nat)
    requires d == Times(b, c)
    ensures Count([a, b, c]) == Times(a, d)
    ensures Flat([a, b, c], [i, j, k]) == Times(i, d) + Times(j, c) + k
  {
    FlatThree(a, b, c, i, j, k);
    NestedTimes(a, b, c, i, j, k);
  }

  lemma NestedTimes(a: nat, b: nat, c: nat, i: nat, j: nat, k: nat)
    ensures Times(Times(a, b), c) == Times(a, Times(b, c))
    ensures Times(Times(i, b) + j, c) + k == Times(i, Times(b, c)) + Times(j, c) + k
  {
    TimesTimes(a, b, c);
    Combine(Times(i, b) + j, i, b, j, c, k);
  }

  lemma Doubled(n: nat)
    ensures Times(2, n) == 2 * n && Times(n, 2) == 2 * n
  {
    TimesIs(2, n);
    TimesIs(n, 2);
  }

  lemma RowPositions(heads: nat, half: nat, i: nat, s: nat, k: nat)
    ensures Count([heads, 2, half]) == Times(heads, 2 * half)
    ensures Flat([heads, 2, half], [i, s, k]) == HalvedRow(half, i, s, k)
    ensures Flat([heads, half, 2], [i, k, s]) == PairedRow(half, i, s, k)
  {
    Doubled(half);
    Doubled(k);
    Nested(heads, 2, half, 2 * half, i, s, k);
    Nested(heads, half, 2, 2 * half, i, k, s);
  }
}

/**
 Byte-pair encoding driven by a rank table, and the merge list that the converter extracts from it
 (QwenModel.bpe and _set_vocab_qwen in convert_hf_to_gguf.py).
 */
module Bpe {
  import opened Base

  newtype Byte = x: int | 0 <= x < 256

  type Bytes = seq<Byte>

  type Ranks = map<Bytes, int>

  /**
   Which pairs of adjacent parts may be merged, and in which order: those whose concatenation is in
   a rank table, by rank; or those in a merge list, by position.
   */
  datatype Ranking = ByTable(ranks: Ranks) | ByList(merges: seq<(Bytes, Bytes)>)

  function IndexOf(merges: seq<(Bytes, Bytes)>, pair: (Bytes, Bytes)): (r: Option<int>)
    ensures r.Some? ==> 0 <= r.value < |merges| && merges[r.value] == pair
    ensures r.None? ==> pair !in merges
  {
    if merges == [] then None
    else if merges[|merges| - 1] == pair then Some(|merges| - 1)
    else IndexOf(merges[..|merges| - 1], pair)
  }

  /** The rank of a pair, if it may be merged; the lowest rank is merged first. */
  function Rank(ranking: Ranking, l: Bytes, r: Bytes): Option<int> {
    match ranking
    case ByTable(ranks) => if l + r in ranks then Some(ranks[l + r]) else None
    case ByList(merges) => IndexOf(merges, (l, r))
  }

  function Singles(token: Bytes): (parts: seq<Bytes>)
    ensures |parts| == |token|
    ensures forall i :: 0 <= i < |token| ==> parts[i] == [token[i]]
  {
    seq(|token|, i requires 0 <= i < |token| => [token[i]])
  }

  function Concat(parts: seq<Bytes>): Bytes {
    if parts == [] then [] else parts[0] + Concat(parts[1..])
  }

  function RankAt(rank: Ranking, parts: seq<Bytes>, i: nat): Option<int>
    requires i + 1 < |parts|
  {
    Rank(rank, parts[i], parts[i + 1])
  }

  /** Pair `i` has a rank, and no pair has a lower one, nor an equal one further left. */
  ghost predicate IsBest(rank: Ranking, parts: seq<Bytes>, n: nat, i: nat)
    requires n < |parts| || n == 0
  {
    && i < n && RankAt(rank, parts, i).Some?
    && forall j: nat :: j < n && RankAt(rank, parts, j).Some? ==>
         && RankAt(rank, parts, i).value <= RankAt(rank, parts, j).value
         && (j < i ==> RankAt(rank, parts, i).value < RankAt(rank, parts, j).value)
  }

  lemma {:induction false} BestExists(rank: Ranking, parts: seq<Bytes>, n: nat) returns (best: Option<nat>)
    requires n < |parts| || n == 0
    ensures best.Some? ==> IsBest(rank, parts, n, best.value)
    ensures best.None? ==> forall j: nat :: j < n ==> RankAt(rank, parts, j).None?
  {
    best := None;
    if n > 0 {
      best := BestExists(rank, parts, n - 1);
      var here := RankAt(rank, parts, n - 1);
      if here.Some? && (best.None? || here.value < RankAt(rank, parts, best.value).value) {
        best := Some(n - 1);
      }
    }
  }

  /** The leftmost pair of least rank. */
  ghost function BestPair(rank: Ranking, parts: seq<Bytes>): (best: Option<nat>)
    ensures best.Some? ==> best.value + 1 < |parts| && IsBest(rank, parts, |parts| - 1, best.value)
    ensures best.None? ==> forall j: nat :: j + 1 < |parts| ==> RankAt(rank, parts, j).None?
  {
    var n := if parts == [] then 0 else |parts| - 1;
    if exists i: nat :: IsBest(rank, parts, n, i) then
      var i: nat :| IsBest(rank, parts, n, i);
      Some(i)
    else
      assert parts != [] ==> forall j: nat :: j + 1 < |parts| ==> RankAt(rank, parts, j).None? by {
        if parts != [] {
          var best := BestExists(rank, parts, |parts| - 1);
        }
      }
      None
  }

  function Merged(parts: seq<Bytes>, i: nat): (r: seq<Bytes>)
    requires i + 1 < |parts|
    ensures |r| == |parts| - 1
  {
    parts[..i] + [parts[i] + parts[i + 1]] + parts[i + 2..]
  }

  /** Merges the best pair again and again, until none is left whose rank is below the bound. */
  ghost function Bpe(rank: Ranking, parts: seq<Bytes>, bound: Option<int>): seq<Bytes>
    decreases |parts|
  {
    match BestPair(rank, parts)
    case None => parts
    case Some(i) =>
      if bound.Some? && RankAt(rank, parts, i).value >= bound.value then parts
      else Bpe(rank, Merged(parts, i), bound)
  }

  method BpeTokens(ranks: Ranks, token: Bytes, maxRank: Option<int>) returns (parts: seq<Bytes>)
    ensures parts == Bpe(ByTable(ranks), Singles(token), maxRank)
  {
    parts := Singles(token);
    ghost var rank := ByTable(ranks);
    while true
      invariant Bpe(rank, Singles(token), maxRank) == Bpe(rank, parts, maxRank)
      decreases |parts|
    {
      var minIdx: Option<nat> := None;
      var minRank := 0;
      var i := 0;
      while i + 1 < |parts|
        invariant 0 <= i && (i + 1 <= |parts| || i == 0)
        invariant minIdx.Some? ==> IsBest(rank, parts, i, minIdx.value)
        invariant minIdx.None? ==> forall j: nat :: j < i ==> RankAt(rank, parts, j).None?
        invariant minIdx.Some? ==> Some(minRank) == RankAt(rank, parts, minIdx.value)
      {
        var merged := parts[i] + parts[i + 1];
        if merged in ranks && (minIdx.None? || ranks[merged] < minRank) {
          minIdx, minRank := Some(i), ranks[merged];
        }
        i := i + 1;
      }
      if minIdx.Some? {
        BestIsUnique(rank, parts, minIdx.value);
      }
      if minIdx.None? || (maxRank.Some? && minRank >= maxRank.value) {
        break;
      }
      parts := Merged(parts, minIdx.value);
    }
  }

  // ----- what every run keeps

  predicate AllNonEmpty(parts: seq<Bytes>) {
    forall i :: 0 <= i < |parts| ==> parts[i] != []
  }

  lemma {:induction false} ConcatAppend(a: seq<Bytes>, b: seq<Bytes>)
    ensures Concat(a + b) == Concat(a) + Concat(b)
  {
    if a == [] {
      assert a + b == b;
    } else {
      assert (a + b)[0] == a[0] && (a + b)[1..] == a[1..] + b;
      ConcatAppend(a[1..], b);
    }
  }

  lemma ConcatPair(x: Bytes, y: Bytes)
    ensures Concat([x, y]) == x + y
  {
    assert [x, y][1..] == [y] && [y][1..] == [];
    assert Concat([y]) == y + Concat([]);
  }

  lemma ConcatOne(x: Bytes)
    ensures Concat([x]) == x
  {
    assert [x][1..] == [];
  }

  lemma ConcatThree(a: seq<Bytes>, m: seq<Bytes>, b: seq<Bytes>)
    ensures Concat(a + m + b) == Concat(a) + Concat(m) + Concat(b)
  {
    ConcatAppend(a + m, b);
    ConcatAppend(a, m);
  }

  lemma ConcatMiddle(a: seq<Bytes>, x: Bytes, y: Bytes, b: seq<Bytes>)
    ensures Concat(a + [x + y] + b) == Concat(a + [x, y] + b)
  {
    ConcatThree(a, [x, y], b);
    ConcatThree(a, [x + y], b);
    ConcatPair(x, y);
    ConcatOne(x + y);
  }

  lemma SplitPair<T>(parts: seq<T>, i: nat)
    requires i + 1 < |parts|
    ensures parts[..i] + [parts[i], parts[i + 1]] + parts[i + 2..] == parts
  {
  }

  lemma MergedConcat(parts: seq<Bytes>, i: nat)
    requires i + 1 < |parts|
    ensures Concat(Merged(parts, i)) == Concat(parts)
  {
    hide Concat;
    ConcatMiddle(parts[..i], parts[i], parts[i + 1], parts[i + 2..]);
    SplitPair(parts, i);
  }

  lemma {:induction false} ConcatSingles(token: Bytes)
    ensures Concat(Singles(token)) == token
  {
    if token != [] {
      assert Singles(token)[1..] == Singles(token[1..]);
      ConcatSingles(token[1..]);
    }
  }

  lemma MergedNonEmpty(parts: seq<Bytes>, i: nat)
    requires AllNonEmpty(parts) && i + 1 < |parts|
    ensures AllNonEmpty(Merged(parts, i))
  {
    assert parts[i] != [];
  }

  /** A run keeps the text and non-empty parts, and stops with no mergeable pair below the bound. */
  lemma {:induction false} BpeKeeps(rank: Ranking, parts: seq<Bytes>, bound: Option<int>)
    requires AllNonEmpty(parts)
    ensures var r := Bpe(rank, parts, bound);
            && Concat(r) == Concat(parts)
            && AllNonEmpty(r)
            && forall i: nat :: i + 1 < |r| && RankAt(rank, r, i).Some? ==>
                 bound.Some? && RankAt(rank, r, i).value >= bound.value
    decreases |parts|
  {
    var best := BestPair(rank, parts);
    if best.Some? && (bound.None? || RankAt(rank, parts, best.value).value < bound.value) {
      MergedConcat(parts, best.value);
      MergedNonEmpty(parts, best.value);
      BpeKeeps(rank, Merged(parts, best.value), bound);
    }
  }

  // ----- a run step by step

  ghost function After(rank: Ranking, parts: seq<Bytes>): seq<Bytes> {
    var best := BestPair(rank, parts);
    if best.None? then parts else Merged(parts, best.value)
  }

  /** The parts after `k` merges, or the final parts when there are fewer. */
  ghost function StateAt(rank: Ranking, parts: seq<Bytes>, k: nat): seq<Bytes> {
    if k == 0 then parts else After(rank, StateAt(rank, parts, k - 1))
  }

  lemma {:induction false} StateAtAfter(rank: Ranking, parts: seq<Bytes>, k: nat)
    ensures StateAt(rank, After(rank, parts), k) == StateAt(rank, parts, k + 1)
  {
    if k > 0 {
      StateAtAfter(rank, parts, k - 1);
    }
  }

  /** The result of a bounded run is a state of the unbounded run. */
  lemma {:induction false} BpeIsState(rank: Ranking, parts: seq<Bytes>, bound: Option<int>) returns (k: nat)
    ensures StateAt(rank, parts, k) == Bpe(rank, parts, bound)
    decreases |parts|
  {
    var best := BestPair(rank, parts);
    if best.None? || (bound.Some? && RankAt(rank, parts, best.value).value >= bound.value) {
      k := 0;
    } else {
      var rest := BpeIsState(rank, Merged(parts, best.value), bound);
      StateAtAfter(rank, parts, rest);
      k := rest + 1;
    }
  }

  /** A run passes at most one state with a given number of parts. */
  lemma {:induction false} OneStatePerCount(rank: Ranking, parts: seq<Bytes>, a: nat, b: nat)
    requires a <= b
    ensures |StateAt(rank, parts, b)| <= |StateAt(rank, parts, a)|
    ensures |StateAt(rank, parts, a)| == |StateAt(rank, parts, b)| ==>
              StateAt(rank, parts, a) == StateAt(rank, parts, b)
    decreases b
  {
    if a < b {
      OneStatePerCount(rank, parts, a, b - 1);
    }
  }

  // ----- locality

  lemma BestIsUnique(rank: Ranking, parts: seq<Bytes>, i: nat)
    requires i + 1 < |parts| && IsBest(rank, parts, |parts| - 1, i)
    ensures BestPair(rank, parts) == Some(i)
  {
  }

  /** The best pair of the whole, when it lies within a segment, is the best pair of the segment. */
  lemma BestWithin(rank: Ranking, p: seq<Bytes>, q: seq<Bytes>, r: seq<Bytes>, j: nat)
    requires j + 1 < |q|
    requires BestPair(rank, p + q + r) == Some(|p| + j)
    ensures BestPair(rank, q) == Some(j)
  {
    var whole := p + q + r;
    forall k: nat | k + 1 < |q|
      ensures RankAt(rank, q, k) == RankAt(rank, whole, |p| + k)
    {
    }
    BestIsUnique(rank, q, j);
  }

  /** A merge seen in the first segment of its result happened within that segment. */
  lemma MergedLeft(before: seq<Bytes>, i: nat, a: seq<Bytes>, c: seq<Bytes>) returns (a0: seq<Bytes>)
    requires i + 1 < |before| && Merged(before, i) == a + c && i < |a|
    ensures before == a0 + c && |a0| == |a| + 1 && Merged(a0, i) == a
  {
    a0 := before[..|a| + 1];
    assert c == Merged(before, i)[|a|..] == before[|a| + 1..];
    assert a == Merged(before, i)[..|a|] == Merged(a0, i);
  }

  /** And one seen after a segment happened after it. */
  lemma MergedRight(before: seq<Bytes>, i: nat, a: seq<Bytes>, c: seq<Bytes>) returns (c0: seq<Bytes>)
    requires i + 1 < |before| && Merged(before, i) == a + c && i >= |a|
    ensures before == a + c0 && |c0| == |c| + 1 && Merged(c0, i - |a|) == c
  {
    c0 := before[|a|..];
    assert a == Merged(before, i)[..|a|] == before[..|a|];
    assert c == Merged(before, i)[|a|..] == Merged(c0, i - |a|);
  }

  /**
   Between two boundaries that a run over a longer text has kept, the parts are a state of the run
   over the enclosed text alone.
   */
  lemma {:induction false} Locality(rank: Ranking, text: Bytes, k: nat, p: seq<Bytes>, q: seq<Bytes>, r: seq<Bytes>)
    returns (m: nat)
    requires StateAt(rank, Singles(text), k) == p + q + r
    ensures StateAt(rank, Singles(Concat(q)), m) == q
    decreases k
  {
    hide BestPair, Concat, Merged, Singles;
    if k == 0 {
      SinglesWithin(text, p, q, r);
      return 0;
    }
    var before := StateAt(rank, Singles(text), k - 1);
    var best := BestPair(rank, before);
    if best.None? {
      m := Locality(rank, text, k - 1, p, q, r);
      return;
    }
    var p0, q0, r0 := MergedWhere(before, best.value, p, q, r);
    m := Locality(rank, text, k - 1, p0, q0, r0);
    if q0 != q {
      LocalStep(rank, p, q0, r, best.value - |p|, m);
      m := m + 1;
    }
  }

  lemma LocalStep(rank: Ranking, p: seq<Bytes>, q: seq<Bytes>, r: seq<Bytes>, j: nat, m: nat)
    requires j + 1 < |q| && BestPair(rank, p + q + r) == Some(|p| + j)
    requires StateAt(rank, Singles(Concat(q)), m) == q
    ensures StateAt(rank, Singles(Concat(Merged(q, j))), m + 1) == Merged(q, j)
  {
    MergedConcat(q, j);
    BestWithin(rank, p, q, r, j);
  }

  /** A merge seen in the result happened in one of the three segments of what was before. */
  lemma MergedWhere(before: seq<Bytes>, i: nat, p: seq<Bytes>, q: seq<Bytes>, r: seq<Bytes>)
    returns (p0: seq<Bytes>, q0: seq<Bytes>, r0: seq<Bytes>)
    requires i + 1 < |before| && Merged(before, i) == p + q + r
    ensures before == p0 + q0 + r0
    ensures q0 == q || (p0 == p && r0 == r && |p| <= i < |p| + |q| && |q0| == |q| + 1 && Merged(q0, i - |p|) == q)
  {
    p0, q0, r0 := p, q, r;
    assert p + q + r == p + (q + r);
    if i < |p| {
      p0 := MergedLeft(before, i, p, q + r);
      assert p0 + (q + r) == p0 + q + r;
    } else if i < |p| + |q| {
      var qr0 := MergedRight(before, i, p, q + r);
      q0 := MergedLeft(qr0, i - |p|, q, r);
      assert p + (q0 + r) == p + q0 + r;
    } else {
      r0 := MergedRight(before, i, p + q, r);
    }
  }

  lemma SinglesCons(x: Bytes, rest: Bytes)
    requires |x| == 1
    ensures Singles(x + rest) == [x] + Singles(rest)
  {
    assert |Singles(x + rest)| == 1 + |Singles(rest)|;
    assert x == [x[0]];
  }

  lemma {:induction false} SinglesConcat(q: seq<Bytes>)
    requires forall i :: 0 <= i < |q| ==> |q[i]| == 1
    ensures Singles(Concat(q)) == q
  {
    hide Singles;
    if q != [] {
      SinglesCons(q[0], Concat(q[1..]));
      SinglesConcat(q[1..]);
    }
  }

  lemma SinglesWithin(text: Bytes, p: seq<Bytes>, q: seq<Bytes>, r: seq<Bytes>)
    requires Singles(text) == p + q + r
    ensures Singles(Concat(q)) == q
  {
    forall i | 0 <= i < |q|
      ensures |q[i]| == 1
    {
      assert q[i] == Singles(text)[|p| + i];
    }
    SinglesConcat(q);
  }

  // ----- the merge list

  /** The order in which the table is listed: every token once, by increasing rank. */
  ghost predicate RankOrdered(ranks: Ranks, order: seq<Bytes>) {
    && (forall t :: t in order <==> t in ranks)
    && (forall i, j :: 0 <= i < j < |order| ==> ranks[order[i]] < ranks[order[j]])
  }

  /** The parts of a token when only lower ranks are merged. */
  ghost function Split(ranks: Ranks, token: Bytes): seq<Bytes>
    requires token in ranks
  {
    Bpe(ByTable(ranks), Singles(token), Some(ranks[token]))
  }

  /** Every token that is not a single byte splits in two: the assertion of the source. */
  ghost predicate SplitsInTwo(ranks: Ranks, order: seq<Bytes>)
    requires forall t :: t in order ==> t in ranks
  {
    forall t :: t in order && |t| != 1 ==> |Split(ranks, t)| == 2
  }

  ghost function Merges(ranks: Ranks, order: seq<Bytes>): (r: seq<(Bytes, Bytes)>)
    requires forall t :: t in order ==> t in ranks
    requires SplitsInTwo(ranks, order)
  {
    if order == [] then []
    else
      var token := order[|order| - 1];
      var before := Merges(ranks, order[..|order| - 1]);
      if |token| == 1 then before
      else
        var merged := Split(ranks, token);
        before + [(merged[0], merged[1])]
  }

  /** The converter's loop; None stands for a failed assertion. */
  method ExtractMerges(ranks: Ranks, order: seq<Bytes>) returns (merges: Option<seq<(Bytes, Bytes)>>)
    requires forall t :: t in order ==> t in ranks
    ensures merges.Some? <==> SplitsInTwo(ranks, order)
    ensures merges.Some? ==> merges.value == Merges(ranks, order)
  {
    var list: seq<(Bytes, Bytes)> := [];
    for i := 0 to |order|
      invariant forall t :: t in order[..i] ==> t in ranks
      invariant SplitsInTwo(ranks, order[..i])
      invariant list == Merges(ranks, order[..i])
    {
      var token := order[i];
      assert order[..i + 1] == order[..i] + [token] && order[..i + 1][..i] == order[..i];
      if |token| != 1 {
        var merged := BpeTokens(ranks, token, Some(ranks[token]));
        assert token in order;
        if |merged| != 2 {
          return None;
        }
        list := list + [(merged[0], merged[1])];
      }
    }
    assert order[..|order|] == order;
    merges := Some(list);
  }

  lemma SplitConcat(ranks: Ranks, token: Bytes)
    requires token in ranks && |Split(ranks, token)| == 2
    ensures Split(ranks, token)[0] + Split(ranks, token)[1] == token
  {
    var s := Split(ranks, token);
    BpeKeeps(ByTable(ranks), Singles(token), Some(ranks[token]));
    ConcatSingles(token);
    assert s == [s[0], s[1]];
    ConcatPair(s[0], s[1]);
  }

  /** Entry `i` of the merge list splits a token of the table, and later entries split higher ranks. */
  lemma {:induction false} MergesAt(ranks: Ranks, order: seq<Bytes>, i: nat)
    requires forall t :: t in order ==> t in ranks
    requires SplitsInTwo(ranks, order) && i < |Merges(ranks, order)|
    ensures var (l, r) := Merges(ranks, order)[i]; l + r in order && |l + r| != 1 && [l, r] == Split(ranks, l + r)
  {
    var last := order[|order| - 1];
    var front := order[..|order| - 1];
    if i < |Merges(ranks, front)| {
      MergesAt(ranks, front, i);
    } else {
      SplitConcat(ranks, last);
    }
  }

  lemma {:induction false} MergesRise(ranks: Ranks, order: seq<Bytes>, i: nat, j: nat)
    requires forall t :: t in order ==> t in ranks
    requires forall a, b :: 0 <= a < b < |order| ==> ranks[order[a]] < ranks[order[b]]
    requires SplitsInTwo(ranks, order) && i < j < |Merges(ranks, order)|
    ensures var (a, b) := Merges(ranks, order)[i];
            var (c, d) := Merges(ranks, order)[j];
            a + b in ranks && c + d in ranks && ranks[a + b] < ranks[c + d]
  {
    var front := order[..|order| - 1];
    MergesAt(ranks, order, i);
    MergesAt(ranks, order, j);
    if j < |Merges(ranks, front)| {
      MergesRise(ranks, front, i, j);
    } else {
      MergesAt(ranks, front, i);
      SplitConcat(ranks, order[|order| - 1]);
    }
  }

  /** The split of every token of two bytes or more is in the list. */
  lemma {:induction false} MergesHave(ranks: Ranks, order: seq<Bytes>, token: Bytes)
    requires forall t :: t in order ==> t in ranks
    requires SplitsInTwo(ranks, order) && token in order && |token| != 1
    ensures (Split(ranks, token)[0], Split(ranks, token)[1]) in Merges(ranks, order)
  {
    if token != order[|order| - 1] {
      MergesHave(ranks, order[..|order| - 1], token);
    }
  }

  // ----- the merge list stands for the table

  /** Adjacent parts of a run that make up a token of the table are that token's split. */
  lemma PairIsSplit(ranks: Ranks, text: Bytes, k: nat, i: nat)
    requires i + 1 < |StateAt(ByTable(ranks), Singles(text), k)|
    requires var s := StateAt(ByTable(ranks), Singles(text), k);
             s[i] + s[i + 1] in ranks && |Split(ranks, s[i] + s[i + 1])| == 2
    ensures var s := StateAt(ByTable(ranks), Singles(text), k); [s[i], s[i + 1]] == Split(ranks, s[i] + s[i + 1])
  {
    var rank := ByTable(ranks);
    var s := StateAt(rank, Singles(text), k);
    var pair, token := [s[i], s[i + 1]], s[i] + s[i + 1];
    assert s == s[..i] + pair + s[i + 2..];
    var m := Locality(rank, text, k, s[..i], pair, s[i + 2..]);
    ConcatPair(s[i], s[i + 1]);
    var n := BpeIsState(rank, Singles(token), Some(ranks[token]));
    if m <= n {
      OneStatePerCount(rank, Singles(token), m, n);
    } else {
      OneStatePerCount(rank, Singles(token), n, m);
    }
  }

  /** Rankings that agree on which pairs may be merged, and in which order, choose the same pair. */
  lemma SameBest(a: Ranking, b: Ranking, parts: seq<Bytes>)
    requires forall i: nat :: i + 1 < |parts| ==> (RankAt(a, parts, i).Some? <==> RankAt(b, parts, i).Some?)
    requires forall i: nat, j: nat ::
               i + 1 < |parts| && j + 1 < |parts| && RankAt(a, parts, i).Some? && RankAt(a, parts, j).Some? ==>
                 (RankAt(a, parts, i).value < RankAt(a, parts, j).value
                  <==> RankAt(b, parts, i).value < RankAt(b, parts, j).value)
    ensures BestPair(a, parts) == BestPair(b, parts)
  {
    var best := BestPair(a, parts);
    if best.Some? {
      assert IsBest(a, parts, |parts| - 1, best.value);
      BestIsUnique(b, parts, best.value);
    }
  }

  lemma RunsAgreeAt(ranks: Ranks, order: seq<Bytes>, text: Bytes, k: nat)
    requires RankOrdered(ranks, order) && SplitsInTwo(ranks, order) && [] !in ranks
    ensures var s := StateAt(ByTable(ranks), Singles(text), k);
            BestPair(ByTable(ranks), s) == BestPair(ByList(Merges(ranks, order)), s)
  {
    var table, merges := ByTable(ranks), Merges(ranks, order);
    var list := ByList(merges);
    var s := StateAt(table, Singles(text), k);
    forall i: nat | i + 1 < |s|
      ensures RankAt(table, s, i).Some? <==> RankAt(list, s, i).Some?
      ensures RankAt(list, s, i).Some? ==> merges[RankAt(list, s, i).value] == (s[i], s[i + 1])
      ensures RankAt(list, s, i).Some? ==> 0 <= RankAt(list, s, i).value < |merges|
    {
      TableMeetsList(ranks, order, text, k, i);
    }
    forall i: nat, j: nat |
      i + 1 < |s| && j + 1 < |s| && RankAt(table, s, i).Some? && RankAt(table, s, j).Some?
      ensures RankAt(table, s, i).value < RankAt(table, s, j).value
              <==> RankAt(list, s, i).value < RankAt(list, s, j).value
    {
      var x, y := RankAt(list, s, i).value, RankAt(list, s, j).value;
      if x < y {
        MergesRise(ranks, order, x, y);
      } else if y < x {
        MergesRise(ranks, order, y, x);
      }
    }
    SameBest(table, list, s);
  }

  lemma TableMeetsList(ranks: Ranks, order: seq<Bytes>, text: Bytes, k: nat, i: nat)
    requires RankOrdered(ranks, order) && SplitsInTwo(ranks, order) && [] !in ranks
    requires i + 1 < |StateAt(ByTable(ranks), Singles(text), k)|
    ensures var s := StateAt(ByTable(ranks), Singles(text), k);
            RankAt(ByTable(ranks), s, i).Some? <==> RankAt(ByList(Merges(ranks, order)), s, i).Some?
  {
    var merges := Merges(ranks, order);
    var s := StateAt(ByTable(ranks), Singles(text), k);
    var token := s[i] + s[i + 1];
    if token in ranks {
      StatesNonEmpty(ByTable(ranks), text, k);
      PairIsSplit(ranks, text, k, i);
      MergesHave(ranks, order, token);
    }
    if (s[i], s[i + 1]) in merges {
      var at :| 0 <= at < |merges| && merges[at] == (s[i], s[i + 1]);
      MergesAt(ranks, order, at);
    }
  }

  lemma {:induction false} StatesNonEmpty(rank: Ranking, text: Bytes, k: nat)
    ensures AllNonEmpty(StateAt(rank, Singles(text), k))
  {
    if k > 0 {
      StatesNonEmpty(rank, text, k - 1);
      var s := StateAt(rank, Singles(text), k - 1);
      if BestPair(rank, s).Some? {
        MergedNonEmpty(s, BestPair(rank, s).value);
      }
    }
  }

  lemma SameFirstMerge(a: Ranking, b: Ranking, parts: seq<Bytes>)
    requires BestPair(a, parts) == BestPair(b, parts)
    requires BestPair(a, parts).Some? ==>
               Bpe(a, After(a, parts), None) == Bpe(b, After(a, parts), None)
    ensures Bpe(a, parts, None) == Bpe(b, parts, None)
  {
  }

  lemma StateShrinks(rank: Ranking, parts: seq<Bytes>)
    requires BestPair(rank, parts).Some?
    ensures |After(rank, parts)| < |parts|
  {
  }

  lemma {:induction false} RunsAgreeFrom(ranks: Ranks, order: seq<Bytes>, text: Bytes, k: nat)
    requires RankOrdered(ranks, order) && SplitsInTwo(ranks, order) && [] !in ranks
    ensures var s := StateAt(ByTable(ranks), Singles(text), k);
            Bpe(ByList(Merges(ranks, order)), s, None) == Bpe(ByTable(ranks), s, None)
    decreases |StateAt(ByTable(ranks), Singles(text), k)|
  {
    var s := StateAt(ByTable(ranks), Singles(text), k);
    RunsAgreeAt(ranks, order, text, k);
    if BestPair(ByTable(ranks), s).Some? {
      StateShrinks(ByTable(ranks), s);
      RunsAgreeFrom(ranks, order, text, k + 1);
    }
    SameFirstMerge(ByTable(ranks), ByList(Merges(ranks, order)), s);
  }

  lemma NoEmptyToken(ranks: Ranks, order: seq<Bytes>)
    requires RankOrdered(ranks, order) && SplitsInTwo(ranks, order)
    ensures [] !in ranks
  {
    assert Singles([]) == [];
    assert forall bound: Option<int> :: Bpe(ByTable(ranks), [], bound) == [];
    assert [] in ranks <==> [] in order;
  }

  /** The extracted merge list splits every byte string exactly as the rank table does. */
  lemma MergeListIsTable(ranks: Ranks, order: seq<Bytes>, text: Bytes)
    requires RankOrdered(ranks, order) && SplitsInTwo(ranks, order)
    ensures Bpe(ByList(Merges(ranks, order)), Singles(text), None) == Bpe(ByTable(ranks), Singles(text), None)
  {
    NoEmptyToken(ranks, order);
    RunsAgreeFrom(ranks, order, text, 0);
  }

  // ----- when a token splits in two

  /** Every merge made before two parts are left ranks below the bound. */
  ghost predicate LowUntilTwo(rank: Ranking, parts: seq<Bytes>, bound: int)
    decreases |parts|
  {
    |parts| <= 2 ||
    (var best := BestPair(rank, parts);
     best.Some? && RankAt(rank, parts, best.value).value < bound && LowUntilTwo(rank, Merged(parts, best.value), bound))
  }

  lemma {:induction false} SplitCount(ranks: Ranks, token: Bytes, parts: seq<Bytes>)
    requires token in ranks && |parts| >= 2 && Concat(parts) == token
    ensures var rank := ByTable(ranks);
            && |Bpe(rank, parts, Some(ranks[token]))| >= 2
            && (|Bpe(rank, parts, Some(ranks[token]))| == 2 <==>
                  Bpe(rank, parts, None) == [token] && LowUntilTwo(rank, parts, ranks[token]))
    decreases |parts|
  {
    var rank := ByTable(ranks);
    var best := BestPair(rank, parts);
    if |parts| == 2 {
      assert parts == [parts[0], parts[1]];
      ConcatPair(parts[0], parts[1]);
      assert RankAt(rank, parts, 0) == Some(ranks[token]);
      BestIsUnique(rank, parts, 0);
      assert Merged(parts, 0) == [token];
    } else if best.Some? {
      MergedConcat(parts, best.value);
      if RankAt(rank, parts, best.value).value < ranks[token] {
        SplitCount(ranks, token, Merged(parts, best.value));
      }
    }
  }

  /**
   The bounded run over a token of two bytes or more never leaves fewer than two parts; it leaves
   two iff the unbounded run ends in the token with every earlier merge ranked below it.
   */
  lemma SplitsInTwoIff(ranks: Ranks, token: Bytes)
    requires token in ranks && |token| >= 2
    ensures |Split(ranks, token)| >= 2
    ensures |Split(ranks, token)| == 2 <==>
              && Bpe(ByTable(ranks), Singles(token), None) == [token]
              && LowUntilTwo(ByTable(ranks), Singles(token), ranks[token])
  {
    ConcatSingles(token);
    SplitCount(ranks, token, Singles(token));
  }

  /** So with an extracted list every token of the table is tokenized as itself. */
  lemma TokensAreTokens(ranks: Ranks, order: seq<Bytes>, token: Bytes)
    requires RankOrdered(ranks, order) && SplitsInTwo(ranks, order) && token in ranks
    ensures Bpe(ByList(Merges(ranks, order)), Singles(token), None) == [token]
  {
    MergeListIsTable(ranks, order, token);
    if |token| >= 2 {
      SplitsInTwoIff(ranks, token);
    } else {
      NoEmptyToken(ranks, order);
      assert token == [token[0]] && Singles(token) == [token];
    }
  }

  // ----- which of several pairs is merged

  /**
   Of several pairs with the least entry of the table the leftmost is merged: the one in front of
   which all entries are greater, and behind which none is less.
   */
  lemma LeftmostMerges(ranks: Ranks, parts: seq<Bytes>, i: nat, bound: Option<int>)
    requires i + 1 < |parts| && parts[i] + parts[i + 1] in ranks
    requires forall j: nat :: j < i && parts[j] + parts[j + 1] in ranks ==>
               ranks[parts[i] + parts[i + 1]] < ranks[parts[j] + parts[j + 1]]
    requires forall j: nat :: i < j && j + 1 < |parts| && parts[j] + parts[j + 1] in ranks ==>
               ranks[parts[i] + parts[i + 1]] <= ranks[parts[j] + parts[j + 1]]
    ensures Bpe(ByTable(ranks), parts, bound)
            == if bound.Some? && ranks[parts[i] + parts[i + 1]] >= bound.value then parts
               else Bpe(ByTable(ranks), parts[..i] + [parts[i] + parts[i + 1]] + parts[i + 2..], bound)
  {
    BestIsUnique(ByTable(ranks), parts, i);
  }

  /** Of the pairs of a merge list the one listed first is merged, where it occurs first. */
  lemma FirstListedMerges(merges: seq<(Bytes, Bytes)>, parts: seq<Bytes>, i: nat, at: nat)
    requires i + 1 < |parts| && at < |merges| && merges[at] == (parts[i], parts[i + 1])
    requires forall a, b :: 0 <= a < b < |merges| ==> merges[a] != merges[b]
    requires forall j: nat :: j + 1 < |parts| ==> (parts[j], parts[j + 1]) !in merges[..at]
    requires forall j: nat :: j < i ==> (parts[j], parts[j + 1]) != merges[at]
    ensures Bpe(ByList(merges), parts, None)
            == Bpe(ByList(merges), parts[..i] + [parts[i] + parts[i + 1]] + parts[i + 2..], None)
  {
    hide IndexOf, Bpe, BestPair;
    var rank := ByList(merges);
    ListedAt(merges, at);
    forall j: nat | j + 1 < |parts| && RankAt(rank, parts, j).Some?
      ensures at <= RankAt(rank, parts, j).value && (j < i ==> at < RankAt(rank, parts, j).value)
    {
      NotBefore(merges, at, RankAt(rank, parts, j).value);
    }
    BestIsUnique(rank, parts, i);
    MergesBest(rank, parts, i);
  }

  lemma ListedAt(merges: seq<(Bytes, Bytes)>, at: nat)
    requires at < |merges| && forall a, b :: 0 <= a < b < |merges| ==> merges[a] != merges[b]
    ensures IndexOf(merges, merges[at]) == Some(at)
  {
    hide IndexOf;
    assert merges[at] in merges;
  }

  lemma NotBefore(merges: seq<(Bytes, Bytes)>, at: nat, r: int)
    requires at <= |merges| && 0 <= r < |merges|
    ensures r < at ==> merges[r] in merges[..at]
  {
    if r < at {
      assert merges[..at][r] == merges[r];
    }
  }

  lemma MergesBest(rank: Ranking, parts: seq<Bytes>, i: nat)
    requires BestPair(rank, parts) == Some(i) && i + 1 < |parts|
    ensures Bpe(rank, parts, None) == Bpe(rank, Merged(parts, i), None)
  {
  }

  function Copies(part: Bytes, n: nat): seq<Bytes> {
    seq(n, _ => part)
  }

  /** `n` equal bytes. */
  function Repeated(a: Byte, n: nat): Bytes {
    seq(n, _ => a)
  }

  /** Only two single bytes `a` may be merged, of all that is made of `a`. */
  predicate OnlyDoubles(ranks: Ranks, a: Byte) {
    [a, a] in ranks && [a, a, a] !in ranks && [a, a, a, a] !in ranks
  }

  lemma {:induction false} DoublesRun(ranks: Ranks, a: Byte, done: nat, left: nat)
    requires OnlyDoubles(ranks, a)
    ensures Bpe(ByTable(ranks), Copies([a, a], done) + Copies([a], left), None)
            == Copies([a, a], done + left / 2) + Copies([a], left % 2)
    decreases left
  {
    hide Bpe, BestPair;
    var parts := Copies([a, a], done) + Copies([a], left);
    assert [a] + [a] == [a, a] && [a, a] + [a] == [a, a, a] && [a, a] + [a, a] == [a, a, a, a];
    if left >= 2 {
      var next := parts[..done] + [parts[done] + parts[done + 1]] + parts[done + 2..];
      assert next == Copies([a, a], done + 1) + Copies([a], left - 2);
      LeftmostMerges(ranks, parts, done, None);
      DoublesRun(ranks, a, done + 1, left - 2);
      assert done + 1 + (left - 2) / 2 == done + left / 2 && (left - 2) % 2 == left % 2;
    } else {
      DoublesEnd(ranks, a, done, left);
      assert left / 2 == 0 && left % 2 == left;
    }
  }

  lemma DoublesEnd(ranks: Ranks, a: Byte, done: nat, left: nat)
    requires OnlyDoubles(ranks, a) && left < 2
    ensures var parts := Copies([a, a], done) + Copies([a], left);
            Bpe(ByTable(ranks), parts, None) == parts
  {
    var rank, parts := ByTable(ranks), Copies([a, a], done) + Copies([a], left);
    assert [a, a] + [a] == [a, a, a] && [a, a] + [a, a] == [a, a, a, a];
    forall j: nat | j + 1 < |parts|
      ensures RankAt(rank, parts, j).None?
    {
      assert parts[j] == [a, a];
    }
    assert BestPair(rank, parts).None?;
  }

  /**
   A run of equal bytes, of which only pairs are tokens, is tokenized from the left: into pairs, and
   one single byte at the end if their number is odd.
   */
  lemma EqualBytes(ranks: Ranks, a: Byte, n: nat)
    requires OnlyDoubles(ranks, a)
    ensures Bpe(ByTable(ranks), Singles(Repeated(a, n)), None) == Copies([a, a], n / 2) + Copies([a], n % 2)
  {
    assert Singles(Repeated(a, n)) == Copies([a, a], 0) + Copies([a], n);
    DoublesRun(ranks, a, 0, n);
  }

  /** And so does the list that is extracted from such a table. */
  lemma EqualBytesByList(ranks: Ranks, order: seq<Bytes>, a: Byte, n: nat)
    requires RankOrdered(ranks, order) && SplitsInTwo(ranks, order) && OnlyDoubles(ranks, a)
    ensures Bpe(ByList(Merges(ranks, order)), Singles(Repeated(a, n)), None) == Copies([a, a], n / 2) + Copies([a], n % 2)
  {
    MergeListIsTable(ranks, order, Repeated(a, n));
    EqualBytes(ranks, a, n);
  }
}

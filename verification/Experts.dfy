/** Collecting the expert tensors of each block and merging them into stacks (LlamaModel in convert_hf_to_gguf.py). */
module Experts {
  import opened Base

  /** Tensor names: those the merging asks for, and all others. */
  datatype Name = Expert(bid: nat, xid: nat, wid: nat) | Other(text: string)

  datatype Arrival<T> = Arrival(bid: nat, name: Name, data: T)

  /** A merged tensor: slot `x` holds the tensor of expert `x`. */
  datatype Stack<T> = Stack(bid: nat, wid: nat, slots: seq<T>)

  datatype Outcome<T> = Stacks(list: seq<Stack<T>>) | Raised

  /** The names asked for before weight `w` of expert `x`. */
  function Asked(bid: nat, n: nat, w: nat, x: nat): set<Name> {
    set wid: nat, xid: nat | wid <= w && xid < n && (wid < w || xid < x) :: Expert(bid, xid, wid)
  }

  /** All the names that belong to a block. */
  function AllNames(bid: nat, n: nat): set<Name> {
    Asked(bid, n, 3, 0)
  }

  function Slots<T>(m: map<Name, T>, bid: nat, n: nat, w: nat): (r: seq<T>)
    requires w < 3 && AllNames(bid, n) <= m.Keys
    ensures |r| == n && forall x :: 0 <= x < n ==> Expert(bid, x, w) in m && r[x] == m[Expert(bid, x, w)]
  {
    seq(n, x requires 0 <= x < n => assert Expert(bid, x, w) in AllNames(bid, n); m[Expert(bid, x, w)])
  }

  function AllStacks<T>(m: map<Name, T>, bid: nat, n: nat): seq<Stack<T>>
    requires AllNames(bid, n) <= m.Keys
  {
    [Stack(bid, 0, Slots(m, bid, n, 0)), Stack(bid, 1, Slots(m, bid, n, 1)), Stack(bid, 2, Slots(m, bid, n, 2))]
  }

  /** One arrival: what is kept for every block, and what is returned. */
  function Arrive<T>(kept: seq<map<Name, T>>, n: nat, a: Arrival<T>): (seq<map<Name, T>>, Outcome<T>) {
    if a.bid >= |kept| then (kept, Raised)
    else
      var m := kept[a.bid][a.name := a.data];
      if |m| < 3 * n then (kept[a.bid := m], Stacks([]))
      else if n > 0 && AllNames(a.bid, n) <= m.Keys then
        (kept[a.bid := m - AllNames(a.bid, n)], Stacks(AllStacks(m, a.bid, n)))
      else (kept, Raised)
  }

  /** Nothing kept for any block. */
  function Start<T>(blockCount: nat): seq<map<Name, T>> {
    seq(blockCount, _ => map[])
  }

  predicate NothingLeft<T>(kept: seq<map<Name, T>>) {
    forall b :: 0 <= b < |kept| ==> |kept[b]| == 0
  }

  class ExpertMerger<T> {
    const nExperts: nat
    const blockCount: nat
    var experts: Option<seq<map<Name, T>>>

    constructor (nExperts: nat, blockCount: nat)
      ensures this.nExperts == nExperts && this.blockCount == blockCount && Kept() == Start(blockCount)
      ensures experts == None
    {
      this.nExperts := nExperts;
      this.blockCount := blockCount;
      experts := None;
    }

    /** What is kept for every block; nothing before the first arrival. */
    function Kept(): seq<map<Name, T>>
      reads this
    {
      if experts.Some? then experts.value else Start(blockCount)
    }

    method ModifyTensors(a: Arrival<T>) returns (r: Outcome<T>)
      modifies this`experts
      ensures r == Arrive(old(Kept()), nExperts, a).1
      ensures r.Stacks? ==> experts == Some(Arrive(old(Kept()), nExperts, a).0)
    {
      if experts.None? {
        experts := Some(Start(blockCount));
      }
      if a.bid >= |experts.value| {
        return Raised;
      }
      experts := Some(experts.value[a.bid := experts.value[a.bid][a.name := a.data]]);
      if |experts.value[a.bid]| < nExperts * 3 {
        return Stacks([]);
      }
      r := Merge(a.bid);
      if r.Stacks? {
        assert experts.value == Arrive(old(Kept()), nExperts, a).0;
      }
    }

    /** Takes the experts of a block out of what is kept, weight by weight. */
    method Merge(bid: nat) returns (r: Outcome<T>)
      requires experts.Some? && bid < |experts.value|
      modifies this`experts
      ensures var m := old(experts.value[bid]);
              if nExperts > 0 && AllNames(bid, nExperts) <= m.Keys then
                r == Stacks(AllStacks(m, bid, nExperts))
                && experts == Some(old(experts.value)[bid := m - AllNames(bid, nExperts)])
              else r == Raised
    {
      ghost var before, m := experts.value, experts.value[bid];
      var tensors: seq<Stack<T>> := [];
      assert m - Asked(bid, nExperts, 0, 0) == m && before[bid := m] == before;
      var w := 0;
      while w < 3
        invariant w <= 3 && |tensors| == w
        invariant forall v :: 0 <= v < w ==> nExperts > 0 && tensors[v].bid == bid && tensors[v].wid == v && |tensors[v].slots| == nExperts
        invariant forall v, x :: 0 <= v < w && 0 <= x < nExperts ==>
                    Expert(bid, x, v) in m && tensors[v].slots[x] == m[Expert(bid, x, v)]
        invariant experts == Some(before[bid := m - Asked(bid, nExperts, w, 0)])
      {
        var datas: seq<T> := [];
        var x := 0;
        while x < nExperts
          invariant x <= nExperts && |datas| == x
          invariant forall y :: 0 <= y < x ==> Expert(bid, y, w) in m && datas[y] == m[Expert(bid, y, w)]
          invariant experts == Some(before[bid := m - Asked(bid, nExperts, w, x)])
        {
          var ename := Expert(bid, x, w);
          if ename !in experts.value[bid] {
            assert ename in AllNames(bid, nExperts);
            return Raised;
          }
          datas := datas + [experts.value[bid][ename]];
          experts := Some(experts.value[bid := experts.value[bid] - {ename}]);
          AskedNext(bid, nExperts, w, x);
          assert m - Asked(bid, nExperts, w, x + 1) == m - Asked(bid, nExperts, w, x) - {ename};
          assert experts.value == before[bid := m - Asked(bid, nExperts, w, x + 1)];
          x := x + 1;
        }
        if |datas| == 0 {
          return Raised;  // nothing to stack
        }
        tensors := tensors + [Stack(bid, w, datas)];
        AskedAll(bid, nExperts, w);
        w := w + 1;
      }
      assert tensors[0].bid == bid;
      AllTaken(m, bid, nExperts, tensors);
      return Stacks(tensors);
    }

    /** The check at the end: nothing may be left. */
    method PrepareTensors() returns (ok: bool)
      ensures ok <==> NothingLeft(Kept())
    {
      ok := true;
      if experts.Some? {
        var b := 0;
        while b < |experts.value|
          invariant b <= |experts.value|
          invariant ok <==> forall c :: 0 <= c < b ==> |Kept()[c]| == 0
        {
          assert Kept()[b] == experts.value[b];
          if |experts.value[b]| > 0 {
            ok := false;
          }
          b := b + 1;
        }
      }
    }
  }

  lemma AskedNext(bid: nat, n: nat, w: nat, x: nat)
    requires x < n
    ensures Asked(bid, n, w, x + 1) == Asked(bid, n, w, x) + {Expert(bid, x, w)}
  {
  }

  lemma AskedAll(bid: nat, n: nat, w: nat)
    ensures Asked(bid, n, w, n) == Asked(bid, n, w + 1, 0)
  {
  }

  lemma AllTaken<T>(m: map<Name, T>, bid: nat, n: nat, tensors: seq<Stack<T>>)
    requires |tensors| == 3
    requires forall v :: 0 <= v < 3 ==> tensors[v].bid == bid && tensors[v].wid == v && |tensors[v].slots| == n
    requires forall v, x :: 0 <= v < 3 && 0 <= x < n ==> Expert(bid, x, v) in m && tensors[v].slots[x] == m[Expert(bid, x, v)]
    ensures AllNames(bid, n) <= m.Keys && tensors == AllStacks(m, bid, n)
  {
    forall v | 0 <= v < 3
      ensures AllNames(bid, n) <= m.Keys && tensors[v].slots == Slots(m, bid, n, v)
    {
    }
  }

  // ----- whole histories

  /** What is kept after a history, as long as nothing was raised. */
  function KeptAfter<T>(events: seq<Arrival<T>>, n: nat, blockCount: nat): (r: seq<map<Name, T>>)
    ensures |r| == blockCount
    decreases |events|
  {
    if events == [] then Start(blockCount)
    else Arrive(KeptAfter(events[..|events| - 1], n, blockCount), n, events[|events| - 1]).0
  }

  /** What the last arrival of a history returns. */
  function Returned<T>(events: seq<Arrival<T>>, n: nat, blockCount: nat): Outcome<T>
    requires events != []
  {
    Arrive(KeptAfter(events[..|events| - 1], n, blockCount), n, events[|events| - 1]).1
  }

  /** All stacks returned for weight `w` of a block over a history, in order. */
  function Emitted<T>(events: seq<Arrival<T>>, n: nat, blockCount: nat, b: nat, w: nat): seq<seq<T>>
    decreases |events|
  {
    if events == [] then []
    else
      Emitted(events[..|events| - 1], n, blockCount, b, w)
      + match Returned(events, n, blockCount)
        case Raised => []
        case Stacks(list) => SlotsOf(list, b, w)
  }

  function SlotsOf<T>(list: seq<Stack<T>>, b: nat, w: nat): seq<seq<T>> {
    if list == [] then []
    else (if list[0].bid == b && list[0].wid == w then [list[0].slots] else []) + SlotsOf(list[1..], b, w)
  }

  /** The tensors that arrived for a block, by name. */
  function Received<T>(events: seq<Arrival<T>>, b: nat): (r: map<Name, T>)
    decreases |events|
  {
    if events == [] then map[]
    else
      var before := Received(events[..|events| - 1], b);
      var a := events[|events| - 1];
      if a.bid == b then before[a.name := a.data] else before
  }

  /** Every arrival has a name of its block, and no name arrives twice. */
  ghost predicate Orderly<T>(events: seq<Arrival<T>>, n: nat, blockCount: nat) {
    && (forall i :: 0 <= i < |events| ==> events[i].bid < blockCount && events[i].name in AllNames(events[i].bid, n))
    && (forall i, j :: 0 <= i < j < |events| ==> events[i].name != events[j].name)
  }

  predicate Complete<T>(events: seq<Arrival<T>>, n: nat, b: nat) {
    AllNames(b, n) <= Received(events, b).Keys
  }

  lemma {:induction false} NamesOfWeight(bid: nat, n: nat, w: nat, x: nat)
    requires x <= n
    ensures |Asked(bid, n, w, x)| == w * n + x
    decreases w, x
  {
    if x > 0 {
      NamesOfWeight(bid, n, w, x - 1);
      AskedNext(bid, n, w, x - 1);
    } else if w > 0 {
      NamesOfWeight(bid, n, w - 1, n);
      AskedAll(bid, n, w - 1);
    } else {
      assert Asked(bid, n, 0, 0) == {};
    }
  }

  lemma {:induction false} ReceivedFrom<T>(events: seq<Arrival<T>>, b: nat)
    ensures forall name :: name in Received(events, b) <==> exists i :: 0 <= i < |events| && events[i].bid == b && events[i].name == name
    decreases |events|
  {
    if events != [] {
      var before := events[..|events| - 1];
      ReceivedFrom(before, b);
      forall name
        ensures name in Received(events, b) <==> exists i :: 0 <= i < |events| && events[i].bid == b && events[i].name == name
      {
        if name in Received(before, b) {
          var i :| 0 <= i < |before| && before[i].bid == b && before[i].name == name;
          assert events[i] == before[i];
        }
        if i :| 0 <= i < |events| && events[i].bid == b && events[i].name == name && i < |before| {
          assert before[i] == events[i];
        }
      }
    }
  }

  lemma OrderlyPrefix<T>(events: seq<Arrival<T>>, n: nat, blockCount: nat, k: nat)
    requires Orderly(events, n, blockCount) && k <= |events|
    ensures Orderly(events[..k], n, blockCount)
  {
  }

  /** A block has received as many tensors as it has names exactly when it has received all of them. */
  lemma CompleteBySize<T>(events: seq<Arrival<T>>, n: nat, blockCount: nat, b: nat)
    requires Orderly(events, n, blockCount)
    ensures Received(events, b).Keys <= AllNames(b, n)
    ensures |Received(events, b)| >= 3 * n <==> Complete(events, n, b)
    ensures Complete(events, n, b) ==> Received(events, b).Keys == AllNames(b, n)
  {
    ReceivedFrom(events, b);
    forall name | name in Received(events, b)
      ensures name in AllNames(b, n)
    {
      var i :| 0 <= i < |events| && events[i].bid == b && events[i].name == name;
    }
    NamesOfWeight(b, n, 3, 0);
    var got := Received(events, b).Keys;
    SubsetSize(got, AllNames(b, n));
    assert |Received(events, b)| == |got|;
    if |got| >= 3 * n {
      SameSize(got, AllNames(b, n));
    } else if Complete(events, n, b) {
      SubsetSize(AllNames(b, n), got);
    }
  }

  lemma SubsetSize(s: set<Name>, t: set<Name>)
    requires s <= t
    ensures |s| <= |t|
  {
    assert t == s + (t - s);
  }

  lemma SameSize(s: set<Name>, t: set<Name>)
    requires s <= t && |s| >= |t|
    ensures s == t
  {
    assert t == s + (t - s);
  }

  /** What is kept of a block: what it received, until it has received everything. */
  ghost predicate KeepsReceived<T>(events: seq<Arrival<T>>, n: nat, blockCount: nat) {
    var kept := KeptAfter(events, n, blockCount);
    forall b :: 0 <= b < blockCount ==> kept[b] == if Complete(events, n, b) then map[] else Received(events, b)
  }

  lemma EmptyIncomplete(n: nat, b: nat)
    requires n > 0
    ensures !(AllNames(b, n) <= {})
  {
    assert Expert(b, 0, 0) in AllNames(b, n);
  }

  /** An orderly arrival finds its block unfinished. */
  lemma StillIncomplete<T>(events: seq<Arrival<T>>, n: nat, blockCount: nat)
    requires events != [] && Orderly(events, n, blockCount)
    ensures n > 0 && !Complete(events[..|events| - 1], n, events[|events| - 1].bid)
  {
    var before, a := events[..|events| - 1], events[|events| - 1];
    assert a.name in AllNames(a.bid, n);
    ReceivedFrom(before, a.bid);
    assert forall i :: 0 <= i < |before| ==> before[i] == events[i];
    assert a.name !in Received(before, a.bid);
  }

  lemma {:induction false} Keeps<T>(events: seq<Arrival<T>>, n: nat, blockCount: nat)
    requires n > 0 && Orderly(events, n, blockCount)
    ensures KeepsReceived(events, n, blockCount)
    decreases |events|
  {
    if events == [] {
      forall b | 0 <= b < blockCount
        ensures !Complete(events, n, b)
      {
        EmptyIncomplete(n, b);
      }
    } else {
      var before, a := events[..|events| - 1], events[|events| - 1];
      OrderlyPrefix(events, n, blockCount, |events| - 1);
      Keeps(before, n, blockCount);
      StillIncomplete(events, n, blockCount);
      CompleteBySize(events, n, blockCount, a.bid);
      var m := KeptAfter(before, n, blockCount)[a.bid][a.name := a.data];
      assert m == Received(events, a.bid);
      assert Complete(events, n, a.bid) ==> m - AllNames(a.bid, n) == map[];
      assert forall b :: b != a.bid ==> Received(events, b) == Received(before, b);
    }
  }

  lemma SlotsOfAll<T>(m: map<Name, T>, bid: nat, n: nat, b: nat, w: nat)
    requires AllNames(bid, n) <= m.Keys && w < 3
    ensures SlotsOf(AllStacks(m, bid, n), b, w) == if b == bid then [Slots(m, b, n, w)] else []
  {
    var s := AllStacks(m, bid, n);
    assert SlotsOf(s[3..], b, w) == [];
    assert s[2..][1..] == s[3..] && s[1..][1..] == s[2..];
    assert SlotsOf(s[2..], b, w) == if b == bid && w == 2 then [Slots(m, b, n, w)] else [];
    assert SlotsOf(s[1..], b, w) == if b == bid && w >= 1 then [Slots(m, b, n, w)] else [];
  }

  /** The last arrival returns the stacks of its block if that is now complete, and nothing otherwise. */
  lemma LastReturns<T>(events: seq<Arrival<T>>, n: nat, blockCount: nat)
    requires events != [] && Orderly(events, n, blockCount)
    ensures n > 0
    ensures var b := events[|events| - 1].bid;
            Returned(events, n, blockCount)
            == Stacks(if Complete(events, n, b) then AllStacks(Received(events, b), b, n) else [])
  {
    var before, a := events[..|events| - 1], events[|events| - 1];
    OrderlyPrefix(events, n, blockCount, |events| - 1);
    StillIncomplete(events, n, blockCount);
    Keeps(before, n, blockCount);
    CompleteBySize(events, n, blockCount, a.bid);
    assert KeptAfter(before, n, blockCount)[a.bid][a.name := a.data] == Received(events, a.bid);
  }

  /**
   Whatever the order of arrival, nothing is raised, and every block that received all its tensors
   emitted each of its stacks once, with the tensor of expert `x` in slot `x`.
   */
  lemma {:induction false} EmitsOnce<T>(events: seq<Arrival<T>>, n: nat, blockCount: nat, b: nat, w: nat)
    requires Orderly(events, n, blockCount) && w < 3
    ensures events != [] ==> Returned(events, n, blockCount).Stacks?
    ensures Emitted(events, n, blockCount, b, w)
            == if n > 0 && Complete(events, n, b) then [Slots(Received(events, b), b, n, w)] else []
    decreases |events|
  {
    hide AllStacks, Arrive, KeptAfter, Orderly, Returned;
    if events == [] {
      if n > 0 {
        EmptyIncomplete(n, b);
      }
    } else {
      var before, a := events[..|events| - 1], events[|events| - 1];
      OrderlyPrefix(events, n, blockCount, |events| - 1);
      StillIncomplete(events, n, blockCount);
      EmitsOnce(before, n, blockCount, b, w);
      LastReturns(events, n, blockCount);
      if Complete(events, n, a.bid) {
        SlotsOfAll(Received(events, a.bid), a.bid, n, b, w);
      }
    }
  }

  /** Histories with the same arrivals emit the same stacks, in whatever order those came. */
  lemma OrderDoesNotMatter<T>(events: seq<Arrival<T>>, others: seq<Arrival<T>>, n: nat, blockCount: nat, b: nat, w: nat)
    requires Orderly(events, n, blockCount) && Orderly(others, n, blockCount) && w < 3
    requires forall a :: a in events <==> a in others
    ensures Emitted(events, n, blockCount, b, w) == Emitted(others, n, blockCount, b, w)
  {
    EmitsOnce(events, n, blockCount, b, w);
    EmitsOnce(others, n, blockCount, b, w);
    SameReceived(events, others, n, blockCount, b);
  }

  /** Every tensor that arrived for a block is what was received under its name. */
  lemma {:induction false} ReceivedData<T>(events: seq<Arrival<T>>, n: nat, blockCount: nat, b: nat)
    requires Orderly(events, n, blockCount)
    ensures forall i :: 0 <= i < |events| && events[i].bid == b ==>
              events[i].name in Received(events, b) && Received(events, b)[events[i].name] == events[i].data
    decreases |events|
  {
    if events != [] {
      var before, a := events[..|events| - 1], events[|events| - 1];
      OrderlyPrefix(events, n, blockCount, |events| - 1);
      ReceivedData(before, n, blockCount, b);
      assert forall i :: 0 <= i < |before| ==> before[i] == events[i] && events[i].name != a.name;
    }
  }

  lemma SameReceived<T>(events: seq<Arrival<T>>, others: seq<Arrival<T>>, n: nat, blockCount: nat, b: nat)
    requires Orderly(events, n, blockCount) && Orderly(others, n, blockCount)
    requires forall a :: a in events <==> a in others
    ensures Received(events, b) == Received(others, b)
  {
    ReceivedIn(events, others, n, blockCount, b);
    ReceivedIn(others, events, n, blockCount, b);
    assert Received(events, b).Keys == Received(others, b).Keys;
  }

  lemma ReceivedIn<T>(events: seq<Arrival<T>>, others: seq<Arrival<T>>, n: nat, blockCount: nat, b: nat)
    requires Orderly(events, n, blockCount) && Orderly(others, n, blockCount)
    requires forall a :: a in events ==> a in others
    ensures forall name :: name in Received(events, b) ==>
              name in Received(others, b) && Received(others, b)[name] == Received(events, b)[name]
  {
    ReceivedFrom(events, b);
    ReceivedData(events, n, blockCount, b);
    ReceivedData(others, n, blockCount, b);
    forall name | name in Received(events, b)
      ensures name in Received(others, b) && Received(others, b)[name] == Received(events, b)[name]
    {
      var i :| 0 <= i < |events| && events[i].bid == b && events[i].name == name;
      assert events[i] in others;
      var j :| 0 <= j < |others| && others[j] == events[i];
    }
  }

  /** A block that fills up with a name that is not asked for among its tensors makes the program raise an error. */
  lemma StrangerRaises<T>(kept: seq<map<Name, T>>, n: nat, a: Arrival<T>, stranger: Name)
    requires a.bid < |kept|
    requires var m := kept[a.bid][a.name := a.data]; |m| == 3 * n && stranger in m && stranger !in AllNames(a.bid, n)
    ensures Arrive(kept, n, a).1 == Raised
  {
    var m := kept[a.bid][a.name := a.data];
    NamesOfWeight(a.bid, n, 3, 0);
    assert |m.Keys| == |m|;
    if AllNames(a.bid, n) <= m.Keys {
      SubsetSize(AllNames(a.bid, n) + {stranger}, m.Keys);
    }
  }

  ghost predicate AllOrNothing<T>(events: seq<Arrival<T>>, n: nat, blockCount: nat) {
    forall b: nat :: b < blockCount ==> Received(events, b) == map[] || Complete(events, n, b)
  }

  /** The end check passes exactly when every block that received a tensor received all of them. */
  lemma EndCheck<T>(events: seq<Arrival<T>>, n: nat, blockCount: nat)
    requires n > 0 && Orderly(events, n, blockCount)
    ensures NothingLeft(KeptAfter(events, n, blockCount)) <==> AllOrNothing(events, n, blockCount)
  {
    Keeps(events, n, blockCount);
    var kept := KeptAfter(events, n, blockCount);
    if NothingLeft(kept) {
      forall b: nat | b < blockCount
        ensures Received(events, b) == map[] || Complete(events, n, b)
      {
        assert kept[b] == map[];
      }
    }
  }
}

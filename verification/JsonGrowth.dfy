/**
 Delivered values that only grow: what one more item, member or character in the innermost container
 of a value under way changes in what is delivered of it.
 */
module JsonGrowth {
  import opened Base
  import opened JsonDump
  import opened JsonPartialResults
  import opened JsonCleaning
  import opened JsonValues
  import opened JsonHealedValues
  import opened JsonPartialValues

  // ----- values that only grow

  /**
   The second value is what the first may become: everything in the first stays as it is, except that
   the string at its end grows if it is arguments or content, and that containers at its end go on.
   */
  predicate Streams(p: Paths, a: Json, b: Json, path: Path)
    decreases a
  {
    || a == b
    || (a.Str? && b.Str? && (path in p.args || path in p.contents) && a.s <= b.s)
    || (a.Arr? && b.Arr? && |a.items| <= |b.items|
        && (a.items != [] ==>
              var n := |a.items| - 1;
              a.items[..n] == b.items[..n] && Streams(p, a.items[n], b.items[n], path)))
    || (a.Obj? && b.Obj? && |a.members| <= |b.members|
        && (a.members != [] ==>
              var n := |a.members| - 1;
              && a.members[..n] == b.members[..n] && a.members[n].key == b.members[n].key
              && Streams(p, a.members[n].value, b.members[n].value, path + [a.members[n].key])))
  }

  lemma {:induction false} StreamsThrough(p: Paths, a: Json, b: Json, d: Json, path: Path)
    requires Streams(p, a, b, path) && Streams(p, b, d, path)
    ensures Streams(p, a, d, path)
    decreases a
  {
    if a != b && b != d {
      match a
      case Arr(items) =>
        if items != [] {
          var n := |items| - 1;
          assert items[..n] == b.items[..n];
          SameFront(b.items, d.items, n);
          if n == |b.items| - 1 {
            StreamsThrough(p, items[n], b.items[n], d.items[n], path);
          }
        }
      case Obj(members) =>
        if members != [] {
          var n := |members| - 1;
          assert members[..n] == b.members[..n];
          SameFront(b.members, d.members, n);
          if n == |b.members| - 1 {
            StreamsThrough(p, members[n].value, b.members[n].value, d.members[n].value, path + [members[n].key]);
          }
        }
      case _ =>
    }
  }

  lemma SameFront<T>(b: seq<T>, d: seq<T>, n: nat)
    requires n < |b| <= |d| && b[..|b| - 1] == d[..|b| - 1]
    ensures b[..n] == d[..n] && (n < |b| - 1 ==> b[n] == d[n])
  {
    assert forall i :: 0 <= i < |b| - 1 ==> b[i] == b[..|b| - 1][i] == d[..|b| - 1][i] == d[i];
  }

  /** A reply that throws goes on throwing. */
  predicate Grows(p: Paths, a: Option<Json>, b: Option<Json>, path: Path) {
    && (a.None? ==> b.None?)
    && (a.Some? && b.Some? ==> Streams(p, a.value, b.value, path))
  }

  lemma GrowsThrough(p: Paths, a: Option<Json>, b: Option<Json>, d: Option<Json>, path: Path)
    requires Grows(p, a, b, path) && Grows(p, b, d, path)
    ensures Grows(p, a, d, path)
  {
    hide Streams;
    if a.Some? && b.Some? && d.Some? {
      StreamsThrough(p, a.value, b.value, d.value, path);
    }
  }

  lemma LastGrows(p: Paths, ms: seq<Member>, name: string, v: Option<Json>, w: Option<Json>, path: Path)
    requires Grows(p, v, w, path + [name])
    ensures Grows(p, WithMember(ms, name, v), WithMember(ms, name, w), path)
  {
    if v.Some? && w.Some? {
      var a, b := ms + [Member(name, v.value)], ms + [Member(name, w.value)];
      assert a[..|ms|] == b[..|ms|] == ms;
    }
  }

  lemma LastItemGrows(p: Paths, items: seq<Json>, v: Option<Json>, w: Option<Json>, path: Path)
    requires Grows(p, v, w, path)
    ensures Grows(p, WithItem(items, v), WithItem(items, w), path)
  {
    if v.Some? && w.Some? {
      var a, b := items + [v.value], items + [w.value];
      assert a[..|items|] == b[..|items|] == items;
    }
  }

  lemma MoreMembersStream(p: Paths, ms: seq<Member>, more: seq<Member>, path: Path)
    ensures Streams(p, Obj(ms), Obj(ms + more), path)
  {
    if ms != [] {
      assert (ms + more)[..|ms| - 1] == ms[..|ms| - 1];
      assert Streams(p, ms[|ms| - 1].value, ms[|ms| - 1].value, path + [ms[|ms| - 1].key]);
    }
  }

  lemma MoreItemsStream(p: Paths, items: seq<Json>, more: seq<Json>, path: Path)
    ensures Streams(p, Arr(items), Arr(items + more), path)
  {
    if items != [] {
      assert (items + more)[..|items| - 1] == items[..|items| - 1];
      assert Streams(p, items[|items| - 1], items[|items| - 1], path);
    }
  }

  // ----- where a text can stop

  /** The containers under way, the string under way in them (a key or a value), and the lead in front of a marker. */
  datatype Stop = Stop(fs: seq<Frame>, key: bool, text: string, lead: string)

  predicate Formed(s: Stop) {
    s.fs != [] && HoleFits(s.fs, s.key)
  }

  function DeliveredAt(p: Paths, marker: string, s: Stop, path: Path): Option<Json>
    requires Formed(s)
  {
    Delivers(p, marker, s.lead, s.fs, s.key, s.text, path)
  }

  function StopText(s: Stop): string
    requires Formed(s)
  {
    Dumped(s.fs, s.key, s.text)
  }

  /** What has been dumped where the text stops. */
  function Stem(s: Stop): string
    requires Formed(s)
  {
    var x := StopText(s);
    if |s.lead| <= |x| then x[..|x| - |s.lead|] else ""
  }

  predicate Placed(s: Stop, marker: string) {
    && Formed(s) && IsLead(s.lead) && Clear(s.fs, marker) && Unseen(s.text, marker) && Suffix(StopText(s), s.lead)
  }

  /** No beginning of the marker is also an end of it. */
  predicate Unbordered(marker: string) {
    forall k :: 0 < k < |marker| ==> marker[k..] != marker[..|marker| - k]
  }

  predicate Steady(marker: string) {
    DigitMarker(marker) && Unbordered(marker)
  }

  lemma BareInPlace(x: string, marker: string)
    requires Steady(marker) && !Contains(x, marker)
    ensures Trimmed(x, "", marker) == x
  {
    assert "" + marker == marker;
    assert Occurs(x + marker, marker, |x|);
    forall k: nat | k < |x|
      ensures !Occurs(x + marker, marker, k)
    {
      if Occurs(x + marker, marker, k) {
        OccursInPart(x, marker, k);
      }
    }
  }

  lemma OccursInPart(x: string, marker: string, k: nat)
    requires k < |x| && Occurs(x + marker, marker, k) && Unbordered(marker)
    ensures Contains(x, marker)
  {
    if k + |marker| <= |x| {
      assert x[k..k + |marker|] == (x + marker)[k..k + |marker|];
      ContainsAt(x, marker, k);
    } else {
      BorderedBy(x, marker, k);
    }
  }

  lemma BorderedBy(x: string, marker: string, k: nat)
    requires k < |x| < k + |marker| && Occurs(x + marker, marker, k)
    ensures marker[|x| - k..] == marker[..|marker| - (|x| - k)]
  {
    assert (x + marker)[k..k + |marker|][|x| - k..] == marker[..|marker| - (|x| - k)];
  }

  lemma StemShown(s: Stop, marker: string)
    requires Placed(s, marker) && Steady(marker)
    ensures Trimmed(StopText(s), s.lead, marker) == Stem(s) && !Contains(StopText(s), marker)
  {
    hide Clear, Contains, Dumped, Find, HoleFits, IsLead, Unbordered, Unseen, DigitMarker;
    DumpedClear(s.fs, s.key, s.text, marker);
    var x := StopText(s);
    if s.lead == "" {
      BareInPlace(x, marker);
    } else {
      var kept := x[..|x| - |s.lead|];
      LedInPlace(x, kept, s.lead, marker);
    }
  }

  lemma LedInPlace(x: string, kept: string, lead: string, marker: string)
    requires DigitMarker(marker) && IsLead(lead) && lead != "" && Suffix(x, lead) && !Contains(x, marker) && kept == x[..|x| - |lead|]
    ensures Trimmed(x, lead, marker) == kept
  {
    hide Contains, DigitMarker, IsLead;
    PrefixHasNot(x, marker, |kept|);
    LeadFindsItself(kept, lead, marker, "");
    assert kept + (lead + marker) + "" == x + marker;
  }

  lemma PlacedInner(f: Frame, s: Stop, marker: string)
    requires s.fs != [] && Placed(s.(fs := [f] + s.fs), marker)
    ensures Placed(s, marker) && StopText(s.(fs := [f] + s.fs)) == FrameText(f) + StopText(s)
    ensures Stem(s.(fs := [f] + s.fs)) == FrameText(f) + Stem(s)
  {
    hide Clear, Dumped, HoleFits, IsLead, Unseen, FrameText, Suffix;
    var fs := [f] + s.fs;
    assert fs[1..] == s.fs;
    DumpedOuter(fs, s.key, s.text);
    LeadFitsInner(fs, s.key, s.text, s.lead);
    ClearParts(fs, marker);
    SuffixFits(StopText(s), s.lead);
    var x := StopText(s);
    assert (FrameText(f) + x)[..|FrameText(f) + x| - |s.lead|] == FrameText(f) + x[..|x| - |s.lead|];
  }

  lemma SuffixFits(x: string, e: string)
    requires Suffix(x, e)
    ensures |e| <= |x|
  {
  }

  /** What is dumped of the innermost containers, inside one more. */
  predicate Further(p: Paths, marker: string, s: Stop, t: Stop, path: Path) {
    Formed(s) && Formed(t) && Stem(s) <= Stem(t) && Grows(p, DeliveredAt(p, marker, s, path), DeliveredAt(p, marker, t, path), path)
  }

  lemma PrefixBehind(a: string, b: string, d: string)
    requires b <= d
    ensures a + b <= a + d
  {
  }

  lemma ArgumentsGrow(p: Paths, marker: string, s: Stop, t: Stop, path: Path)
    requires Placed(s, marker) && Placed(t, marker) && Steady(marker) && Stem(s) <= Stem(t) && path in p.args
    ensures Grows(p, DeliveredAt(p, marker, s, path), DeliveredAt(p, marker, t, path), path)
  {
    hide Clear, Dumped, HoleFits, IsLead, Unseen, Suffix, Trimmed, Steady;
    StemShown(s, marker);
    StemShown(t, marker);
  }

  /** If what is innermost goes on, so does it inside one more container. */
  lemma FrontGrows(p: Paths, marker: string, f: Frame, s: Stop, t: Stop, path: Path)
    requires s.fs != [] && t.fs != [] && Steady(marker)
    requires Placed(s.(fs := [f] + s.fs), marker) && Placed(t.(fs := [f] + t.fs), marker)
    requires Further(p, marker, s, t, if f.ArrayFrame? then path else path + [f.key])
    ensures Further(p, marker, s.(fs := [f] + s.fs), t.(fs := [f] + t.fs), path)
  {
    hide Dumped, FrameText, Grows, HoleFits, ItemsDumpedAt, ItemsMisplaced, MembersDumpedAt, MembersMisplaced, Placed,
      Stem, Steady, Trimmed;
    var s', t' := s.(fs := [f] + s.fs), t.(fs := [f] + t.fs);
    PlacedInner(f, s, marker);
    PlacedInner(f, t, marker);
    PlacedFormed(s', marker);
    PlacedFormed(t', marker);
    PrefixBehind(FrameText(f), Stem(s), Stem(t));
    assert s'.fs[1..] == s.fs && t'.fs[1..] == t.fs;
    if path in p.args {
      ArgumentsGrow(p, marker, s', t', path);
    } else {
      InsideGrows(p, marker, f, s, t, path);
    }
  }

  lemma PlacedFormed(s: Stop, marker: string)
    requires Placed(s, marker)
    ensures Formed(s)
  {
  }

  lemma InsideGrows(p: Paths, marker: string, f: Frame, s: Stop, t: Stop, path: Path)
    requires Formed(s) && Formed(t) && Formed(s.(fs := [f] + s.fs)) && Formed(t.(fs := [f] + t.fs)) && path !in p.args
    requires var inner := if f.ArrayFrame? then path else path + [f.key];
             Grows(p, DeliveredAt(p, marker, s, inner), DeliveredAt(p, marker, t, inner), inner)
    ensures Grows(p, DeliveredAt(p, marker, s.(fs := [f] + s.fs), path), DeliveredAt(p, marker, t.(fs := [f] + t.fs), path), path)
  {
    hide HoleFits, ItemsDumpedAt, ItemsMisplaced, MembersDumpedAt, MembersMisplaced, Streams, Trimmed;
    var s', t' := s.(fs := [f] + s.fs), t.(fs := [f] + t.fs);
    assert s'.fs[1..] == s.fs && t'.fs[1..] == t.fs;
    match f
    case ArrayFrame(items) =>
      LastItemGrows(p, ItemsDumpedAt(p, items, path), DeliveredAt(p, marker, s, path), DeliveredAt(p, marker, t, path), path);
    case ObjectFrame(members, name) =>
      var inner := path + [name];
      LastGrows(p, MembersDumpedAt(p, members, path), name, DeliveredAt(p, marker, s, inner), DeliveredAt(p, marker, t, inner), path);
  }

  lemma {:induction false} FrontsGrow(p: Paths, marker: string, front: seq<Frame>, s: Stop, t: Stop, path: Path)
    requires s.fs != [] && t.fs != [] && Steady(marker)
    requires Placed(s.(fs := front + s.fs), marker) && Placed(t.(fs := front + t.fs), marker)
    requires forall inner: Path :: Further(p, marker, s, t, inner)
    ensures Further(p, marker, s.(fs := front + s.fs), t.(fs := front + t.fs), path)
    decreases |front|
  {
    hide Further, Placed, Steady;
    if front == [] {
      assert front + s.fs == s.fs && front + t.fs == t.fs;
    } else {
      var f, rest := front[0], front[1..];
      var s', t' := s.(fs := rest + s.fs), t.(fs := rest + t.fs);
      assert [f] + s'.fs == front + s.fs && [f] + t'.fs == front + t.fs;
      PlacedInner(f, s', marker);
      PlacedInner(f, t', marker);
      FrontsGrow(p, marker, rest, s, t, if f.ArrayFrame? then path else path + [f.key]);
      FrontGrows(p, marker, f, s', t', path);
    }
  }

  // ----- one more character, in the innermost container

  function Single(f: Frame, key: bool, text: string, lead: string): Stop {
    Stop([f], key, text, lead)
  }

  lemma SingleText(f: Frame, key: bool, text: string)
    requires HoleFits([f], key)
    ensures Dumped([f], key, text) == (if key then HeadText(f) else FrameText(f)) + "\"" + EscapeAll(text)
  {
    hide HeadText, FrameText, EscapeAll;
    assert [f][..0] == [] && OpenText([]) == "" && OpenText([f]) == OpenText([]) + FrameText(f);
    assert "" + HeadText(f) == HeadText(f) && "" + FrameText(f) == FrameText(f);
  }

  /** The dump of a container up to the end of its last item or member. */
  function BodyText(f: Frame): string {
    match f
    case ArrayFrame(items) => "[" + DumpItems(items)
    case ObjectFrame(members, _) => "{" + DumpMembers(members)
  }

  lemma StemIs(s: Stop, a: string)
    requires Formed(s) && StopText(s) == a + s.lead
    ensures Stem(s) == a
  {
    hide Dumped, HoleFits;
    assert (a + s.lead)[..|a|] == a;
  }

  lemma NothingEscaped()
    ensures EscapeAll("") == ""
  {
  }

  /** What has been dumped, by where the text stops in the innermost container. */
  lemma TextStem(f: Frame, key: bool, text: string)
    requires HoleFits([f], key)
    ensures Stem(Single(f, key, text, "")) == (if key then HeadText(f) else FrameText(f)) + "\"" + EscapeAll(text)
  {
    hide HeadText, FrameText, EscapeAll, HoleFits, Dumped, Stem;
    SingleText(f, key, text);
    var a := (if key then HeadText(f) else FrameText(f)) + "\"" + EscapeAll(text);
    assert a + "" == a;
    StemIs(Single(f, key, text, ""), a);
  }

  lemma StartStem(f: Frame, key: bool)
    requires HoleFits([f], key)
    ensures Stem(Single(f, key, "", "\"")) == if key then HeadText(f) else FrameText(f)
  {
    hide HeadText, FrameText, EscapeAll, HoleFits, Dumped, Stem;
    SingleText(f, key, "");
    NothingEscaped();
    var a := if key then HeadText(f) else FrameText(f);
    assert a + "\"" + "" == a + "\"";
    StemIs(Single(f, key, "", "\""), a);
  }

  lemma ColonStem(f: Frame)
    requires f.ObjectFrame?
    ensures Stem(Single(f, false, "", ":\"")) == HeadText(f) + DumpString(f.key)
  {
    hide HeadText, EscapeAll, Dumped, Stem, DumpString;
    SingleText(f, false, "");
    NothingEscaped();
    var a := HeadText(f) + DumpString(f.key);
    assert HeadText(f) + (DumpString(f.key) + ":") + "\"" + "" == a + ":\"";
    StemIs(Single(f, false, "", ":\""), a);
  }

  lemma CommaStem(f: Frame)
    requires TopFilled([f])
    ensures Stem(Single(f, f.ObjectFrame?, "", ",\"")) == BodyText(f)
  {
    hide EscapeAll, Dumped, Stem, DumpItems, DumpMembers, DumpString;
    SingleText(f, f.ObjectFrame?, "");
    NothingEscaped();
    assert BodyText(f) + "," + "\"" + "" == BodyText(f) + ",\"";
    StemIs(Single(f, f.ObjectFrame?, "", ",\""), BodyText(f));
  }

  /** Paths are for arguments or for content, not for both. */
  predicate Apart(p: Paths) {
    forall path :: path in p.args ==> path !in p.contents
  }

  predicate SameContents(f: Frame, g: Frame) {
    match f
    case ArrayFrame(items) => g == f
    case ObjectFrame(members, _) => g.ObjectFrame? && g.members == members
  }

  lemma ContentShown(p: Paths, marker: string, text: string, path: Path)
    requires Steady(marker) && Unseen(text, marker) && Apart(p) && path in p.contents
    ensures StringDelivered(p, marker, text, path) == text
  {
    hide Contains, Unseen, Unbordered;
    UnseenIsFaithful(text, marker);
    BareInPlace(text, marker);
  }

  /** What is delivered where a text stops does not depend on the marker. */
  lemma {:induction false} MarkerForgotten(p: Paths, marker: string, other: string, s: Stop, path: Path)
    requires Placed(s, marker) && Placed(s, other) && Steady(marker) && Steady(other) && Apart(p)
    ensures DeliveredAt(p, marker, s, path) == DeliveredAt(p, other, s, path)
    decreases |s.fs|
  {
    hide Dumped, HoleFits, ItemsDumpedAt, ItemsMisplaced, MembersDumpedAt, MembersMisplaced, Steady, StringDelivered, Stem, Trimmed,
      Clear, IsLead, Suffix, Unseen;
    StemShown(s, marker);
    StemShown(s, other);
    var f := s.fs[0];
    if |s.fs| > 1 {
      var inner := s.(fs := s.fs[1..]);
      assert s.(fs := [f] + inner.fs) == s;
      PlacedInner(f, inner, marker);
      PlacedInner(f, inner, other);
      MarkerForgotten(p, marker, other, inner, if f.ArrayFrame? then path else path + [f.key]);
    } else if f.ObjectFrame? && path + [f.key] in p.contents {
      ContentShown(p, marker, s.text, path + [f.key]);
      ContentShown(p, other, s.text, path + [f.key]);
    }
  }

  /** Nothing is put into the container: its own text goes on, and its last string does. */
  lemma TipGrows(p: Paths, marker: string, f: Frame, g: Frame, s: Stop, t: Stop, path: Path)
    requires s == Single(f, s.key, s.text, s.lead) && t == Single(g, t.key, t.text, t.lead) && SameContents(f, g)
    requires Placed(s, marker) && Placed(t, marker) && Steady(marker) && Apart(p) && Stem(s) <= Stem(t)
    requires p.contents != [] && !s.key && s.lead == "" ==> f == g && !t.key && t.lead == "" && s.text <= t.text
    ensures Further(p, marker, s, t, path)
  {
    hide Clear, Dumped, IsLead, ItemsDumpedAt, ItemsMisplaced, MembersDumpedAt, MembersMisplaced, Stem, Steady,
      StringDelivered, Suffix, Trimmed, Unseen;
    if path in p.args {
      ArgumentsGrow(p, marker, s, t, path);
    } else if f.ObjectFrame? {
      TextsGrow(p, marker, f, g, s, t, path);
    }
  }

  lemma TextsGrow(p: Paths, marker: string, f: Frame, g: Frame, s: Stop, t: Stop, path: Path)
    requires f.ObjectFrame? && g.ObjectFrame? && Steady(marker) && Apart(p) && Unseen(s.text, marker) && Unseen(t.text, marker)
    requires p.contents != [] && !s.key && s.lead == "" ==> f == g && !t.key && t.lead == "" && s.text <= t.text
    ensures var kept := MembersDumpedAt(p, f.members, path);
            Streams(p, Obj(kept + LastText(p, marker, s.lead, f.key, s.key, s.text, path)),
                    Obj(kept + LastText(p, marker, t.lead, g.key, t.key, t.text, path)), path)
  {
    hide MembersDumpedAt, Steady, StringDelivered, Unseen;
    var kept := MembersDumpedAt(p, f.members, path);
    var inner := path + [f.key];
    if !s.key && s.lead == "" && inner in p.contents {
      ContentShown(p, marker, s.text, inner);
      ContentShown(p, marker, t.text, inner);
      LastGrows(p, kept, f.key, Some(Str(s.text)), Some(Str(t.text)), path);
    } else {
      MoreMembersStream(p, kept, LastText(p, marker, t.lead, g.key, t.key, t.text, path), path);
      assert kept + [] == kept;
    }
  }

  lemma {:induction false} MembersDumpedSnoc(p: Paths, ms: seq<Member>, m: Member, path: Path)
    ensures MembersDumpedAt(p, ms + [m], path)
            == MembersDumpedAt(p, ms, path)
               + [Member(m.key, if m.value.Str? then m.value else DumpedAt(p, m.value, path + [m.key]))]
    ensures MembersMisplaced(p, ms + [m], path)
            <==> MembersMisplaced(p, ms, path) || (!m.value.Str? && Misplaced(p, m.value, path + [m.key]))
    decreases |ms|
  {
    hide DumpedAt, Misplaced;
    if ms == [] {
      assert [] + [m] == [m] && [m][1..] == [];
    } else {
      assert (ms + [m])[1..] == ms[1..] + [m];
      MembersDumpedSnoc(p, ms[1..], m, path);
    }
  }

  lemma {:induction false} ItemsDumpedSnoc(p: Paths, items: seq<Json>, v: Json, path: Path)
    ensures ItemsDumpedAt(p, items + [v], path) == ItemsDumpedAt(p, items, path) + [DumpedAt(p, v, path)]
    ensures ItemsMisplaced(p, items + [v], path) <==> ItemsMisplaced(p, items, path) || Misplaced(p, v, path)
    decreases |items|
  {
    hide DumpedAt, Misplaced;
    if items == [] {
      assert [] + [v] == [v] && [v][1..] == [];
    } else {
      assert (items + [v])[1..] == items[1..] + [v];
      ItemsDumpedSnoc(p, items[1..], v, path);
    }
  }

  /** What is delivered of a value that is complete. */
  function Final(p: Paths, v: Json, path: Path): Option<Json> {
    if Misplaced(p, v, path) then None else Some(DumpedAt(p, v, path))
  }

  /** The stop behind a value that has been put into the innermost container. */
  function AfterValue(fs: seq<Frame>): Stop
    requires fs != []
  {
    Stop(fs, fs[|fs| - 1].ObjectFrame?, "", ",\"")
  }

  function MemberFinal(p: Paths, v: Json, path: Path): Option<Json> {
    if v.Str? then Some(v) else Final(p, v, path)
  }

  lemma AfterDelivers(p: Paths, marker: string, f: Frame, v: Json, path: Path)
    requires path !in p.args && path !in p.contents
    ensures DeliveredAt(p, marker, AfterValue([Added(f, v)]), path)
            == if f.ArrayFrame? then
                 if ItemsMisplaced(p, f.items, path) then None else WithItem(ItemsDumpedAt(p, f.items, path), Final(p, v, path))
               else
                 if MembersMisplaced(p, f.members, path) then None
                 else WithMember(MembersDumpedAt(p, f.members, path), f.key, MemberFinal(p, v, path + [f.key]))
  {
    hide DumpedAt, ItemsDumpedAt, ItemsMisplaced, MembersDumpedAt, MembersMisplaced, Misplaced;
    match f
    case ArrayFrame(items) =>
      ItemsDumpedSnoc(p, items, v, path);
    case ObjectFrame(members, name) =>
      MembersDumpedSnoc(p, members, Member(name, v), path);
      var kept := MembersDumpedAt(p, members + [Member(name, v)], path);
      assert kept + [] == kept;
  }

  lemma BodyDump(f: Frame)
    ensures Dump(Closed(f)) == BodyText(f) + Closer(f)
  {
    hide DumpItems, DumpMembers;
  }

  lemma PutStem(f: Frame, v: Json)
    ensures Stem(AfterValue([Added(f, v)])) == FrameText(f) + Dump(v)
  {
    hide BodyText, Dump, FrameText, Stem, Closed;
    var g := Added(f, v);
    CommaStem(g);
    AddedDump(f, v);
    BodyDump(g);
    assert Closer(g) == Closer(f);
    assert (BodyText(g) + Closer(f))[..|BodyText(g)|] == BodyText(g);
    assert (FrameText(f) + Dump(v) + Closer(f))[..|FrameText(f) + Dump(v)|] == FrameText(f) + Dump(v);
  }

  lemma EscapedPrefix(a: string, b: string)
    requires a <= b
    ensures EscapeAll(a) <= EscapeAll(b)
  {
    hide EscapeAll;
    EscapeAppend(a, b[|a|..]);
    assert a + b[|a|..] == b;
  }

  /** The string or other scalar that is put into the container is the one that was under way or awaited. */
  predicate Puts(s: Stop, v: Json) {
    !s.key && if s.lead == "" then v.Str? && s.text <= v.s else s.lead == "\"" && s.text == ""
  }

  lemma PutsStem(f: Frame, s: Stop, v: Json)
    requires s == Single(f, s.key, s.text, s.lead) && Formed(s) && Puts(s, v)
    ensures Stem(s) <= Stem(AfterValue([Added(f, v)]))
  {
    hide FrameText, HeadText, EscapeAll, Stem;
    PutStem(f, v);
    if s.lead == "" {
      TextStem(f, false, s.text);
      EscapedPrefix(s.text, v.s);
      StringDump(v.s);
      assert FrameText(f) + "\"" + EscapeAll(s.text) <= FrameText(f) + ("\"" + EscapeAll(v.s) + "\"");
    } else {
      StartStem(f, false);
    }
  }

  lemma PutGrows(p: Paths, marker: string, f: Frame, s: Stop, v: Json, path: Path)
    requires s == Single(f, s.key, s.text, s.lead) && Puts(s, v) && Steady(marker) && Apart(p)
    requires Placed(s, marker) && Placed(AfterValue([Added(f, v)]), marker)
    ensures Further(p, marker, s, AfterValue([Added(f, v)]), path)
  {
    hide Clear, Dumped, IsLead, ItemsDumpedAt, ItemsMisplaced, MembersDumpedAt, MembersMisplaced, Stem, Steady,
      StringDelivered, Suffix, Trimmed, Unseen, Final, Added;
    var t := AfterValue([Added(f, v)]);
    PutsStem(f, s, v);
    if path in p.args {
      ArgumentsGrow(p, marker, s, t, path);
    } else if path !in p.contents {
      AfterDelivers(p, marker, f, v, path);
      match f
      case ArrayFrame(items) => ItemPut(p, items, Final(p, v, path), path);
      case ObjectFrame(members, name) => MemberPut(p, marker, f, s, v, path);
    }
  }

  lemma ItemPut(p: Paths, items: seq<Json>, v: Option<Json>, path: Path)
    ensures Grows(p, Some(Arr(ItemsDumpedAt(p, items, path))), WithItem(ItemsDumpedAt(p, items, path), v), path)
  {
    hide ItemsDumpedAt, Streams;
    if v.Some? {
      MoreItemsStream(p, ItemsDumpedAt(p, items, path), [v.value], path);
    }
  }

  lemma MemberPut(p: Paths, marker: string, f: Frame, s: Stop, v: Json, path: Path)
    requires f.ObjectFrame? && Puts(s, v) && Steady(marker) && Apart(p) && Unseen(s.text, marker)
    ensures var kept := MembersDumpedAt(p, f.members, path);
            Grows(p, Some(Obj(kept + LastText(p, marker, s.lead, f.key, s.key, s.text, path))),
                  WithMember(kept, f.key, MemberFinal(p, v, path + [f.key])), path)
  {
    hide MembersDumpedAt, Steady, StringDelivered, Unseen, Final;
    var kept, inner := MembersDumpedAt(p, f.members, path), path + [f.key];
    var w := MemberFinal(p, v, inner);
    if s.lead == "" && inner in p.contents {
      ContentShown(p, marker, s.text, inner);
      LastGrows(p, kept, f.key, Some(Str(s.text)), w, path);
    } else if w.Some? {
      MoreMembersStream(p, kept, [Member(f.key, w.value)], path);
      assert kept + [] == kept;
    }
  }

  /** A container that is complete is put into the one around it. */
  lemma ClosedPutGrows(p: Paths, marker: string, f: Frame, s: Stop, v: Json, path: Path)
    requires s.fs != [] && Placed(s.(fs := [f] + s.fs), marker) && Placed(AfterValue([Added(f, v)]), marker)
    requires Steady(marker) && !v.Str?
    requires Formed(s) && Stem(s) <= Dump(v)
    requires var inner := if f.ArrayFrame? then path else path + [f.key];
             Grows(p, DeliveredAt(p, marker, s, inner), Final(p, v, inner), inner)
    ensures Further(p, marker, s.(fs := [f] + s.fs), AfterValue([Added(f, v)]), path)
  {
    hide Dump, Dumped, FrameText, Grows, HoleFits, ItemsDumpedAt, ItemsMisplaced, MembersDumpedAt, MembersMisplaced,
      Placed, Stem, Steady, Trimmed, Final, Added;
    var s', t := s.(fs := [f] + s.fs), AfterValue([Added(f, v)]);
    PlacedInner(f, s, marker);
    PutStem(f, v);
    PrefixBehind(FrameText(f), Stem(s), Dump(v));
    PlacedFormed(s', marker);
    PlacedFormed(t, marker);
    assert s'.fs[1..] == s.fs;
    if path in p.args {
      ArgumentsGrow(p, marker, s', t, path);
    } else if path in p.contents {
      NoneGrows(p, path);
    } else {
      AfterDelivers(p, marker, f, v, path);
      match f
      case ArrayFrame(items) =>
        NoneGrows(p, path);
        LastItemGrows(p, ItemsDumpedAt(p, items, path), DeliveredAt(p, marker, s, path), Final(p, v, path), path);
      case ObjectFrame(members, name) =>
        NoneGrows(p, path);
        var inner := path + [name];
        LastGrows(p, MembersDumpedAt(p, members, path), name, DeliveredAt(p, marker, s, inner), Final(p, v, inner), path);
    }
  }

  lemma NoneGrows(p: Paths, path: Path)
    ensures Grows(p, None, None, path)
  {
  }

  /** The stop before a bracket that closes the container. */
  predicate Closable(g: Frame, s: Stop) {
    && s == Single(g, g.ObjectFrame?, "", s.lead)
    && s.lead == if TopFilled([g]) then ",\"" else "\""
  }

  lemma ClosableStem(g: Frame, s: Stop)
    requires Closable(g, s)
    ensures Formed(s) && Dump(Closed(g)) == Stem(s) + Closer(g)
  {
    hide Stem, Dump, DumpItems, DumpMembers;
    BodyDump(g);
    if TopFilled([g]) {
      CommaStem(g);
    } else {
      StartStem(g, g.ObjectFrame?);
      EmptyBody(g);
    }
  }

  lemma EmptyBody(g: Frame)
    requires !TopFilled([g])
    ensures HeadText(g) == BodyText(g) && (g.ArrayFrame? ==> FrameText(g) == BodyText(g))
  {
    match g
    case ArrayFrame(items) => assert "[" + DumpItems([]) + "" == "[" + DumpItems([]);
    case ObjectFrame(members, _) => assert "{" + DumpMembers([]) + "" == "{" + DumpMembers([]);
  }

  /** A container that is closed. */
  lemma CloseGrows(p: Paths, marker: string, g: Frame, s: Stop, path: Path)
    requires Closable(g, s) && Placed(s, marker) && Steady(marker)
    ensures Stem(s) <= Dump(Closed(g)) && Grows(p, DeliveredAt(p, marker, s, path), Final(p, Closed(g), path), path)
  {
    hide Dump, Dumped, ItemsDumpedAt, ItemsMisplaced, MembersDumpedAt, MembersMisplaced, Placed, Stem, Steady,
      Trimmed;
    ClosableStem(g, s);
    PrefixOfMore(Stem(s), Closer(g));
    if path in p.args {
      StemShown(s, marker);
    } else {
      var kept := MembersDumpedAt(p, if g.ObjectFrame? then g.members else [], path);
      assert kept + [] == kept;
    }
  }

  lemma PrefixOfMore(a: string, e: string)
    ensures a <= a + e
  {
  }

  /** A container that is opened where a value is awaited. */
  lemma OpenGrows(p: Paths, marker: string, f: Frame, g: Frame, s: Stop, t: Stop, path: Path)
    requires g == ArrayFrame([]) || g == ObjectFrame([], "")
    requires s == Single(f, false, "", "\"") && t == Stop([f, g], g.ObjectFrame?, "", "\"")
    requires Placed(s, marker) && Placed(t, marker) && Steady(marker)
    ensures Further(p, marker, s, t, path)
  {
    hide Dumped, ItemsDumpedAt, ItemsMisplaced, MembersDumpedAt, MembersMisplaced, Placed, Stem, Steady, Trimmed,
      FrameText, HoleFits, Streams;
    var inner := Single(g, g.ObjectFrame?, "", "\"");
    assert [f] + inner.fs == t.fs;
    PlacedInner(f, inner, marker);
    PlacedFormed(inner, marker);
    PlacedFormed(s, marker);
    PlacedFormed(t, marker);
    StartStem(f, false);
    PrefixOfMore(FrameText(f), Stem(inner));
    assert t.fs[1..] == [g];
    if path in p.args {
      ArgumentsGrow(p, marker, s, t, path);
    } else if path in p.contents {
      NoneGrows(p, path);
    } else {
      OpenedGrows(p, marker, f, g, path);
    }
  }

  lemma OpenedGrows(p: Paths, marker: string, f: Frame, g: Frame, path: Path)
    requires g == ArrayFrame([]) || g == ObjectFrame([], "")
    requires path !in p.args && path !in p.contents
    ensures Formed(Stop([f, g], g.ObjectFrame?, "", "\""))
    ensures Grows(p, DeliveredAt(p, marker, Single(f, false, "", "\""), path),
                  DeliveredAt(p, marker, Stop([f, g], g.ObjectFrame?, "", "\""), path), path)
  {
    hide ItemsDumpedAt, ItemsMisplaced, MembersDumpedAt, MembersMisplaced, Streams, Trimmed;
    assert [f, g][1..] == [g];
    var inner := Single(g, g.ObjectFrame?, "", "\"");
    match f
    case ArrayFrame(items) =>
      var v := DeliveredAt(p, marker, inner, path);
      if v.Some? {
        MoreItemsStream(p, ItemsDumpedAt(p, items, path), [v.value], path);
      }
    case ObjectFrame(members, name) =>
      var v := DeliveredAt(p, marker, inner, path + [name]);
      var kept := MembersDumpedAt(p, members, path);
      assert kept + [] == kept;
      if v.Some? {
        MoreMembersStream(p, kept, [Member(name, v.value)], path);
      }
  }
}

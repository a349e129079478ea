/**
 What a caller is given of a healed value, said without the healing: of every container under way the
 members and items that are complete, and of arguments their dump as far as it goes.
 */
module JsonPartialValues {
  import opened Base
  import opened JsonMachine
  import opened JsonDump
  import opened JsonPartialResults
  import opened JsonCleaning
  import opened JsonValues
  import opened JsonHealedValues

  // ----- what is delivered

  /** A text in front of the marker, cut where the dump marker is first found. */
  function Trimmed(x: string, lead: string, marker: string): (r: string)
    ensures r <= x
  {
    var at := Find(x + marker, lead + marker, 0);
    if at.Some? && at.value <= |x| then x[..at.value] else x
  }

  /** The dump of containers under way, up to where the string under way goes on. */
  function Dumped(fs: seq<Frame>, key: bool, text: string): string
    requires HoleFits(fs, key)
  {
    Before(fs, key) + "\"" + EscapeAll(text)
  }

  /** What is delivered of a string under way at a content path. */
  function StringDelivered(p: Paths, marker: string, text: string, path: Path): string {
    if path in p.args then
      var cut := Trimmed("\"" + EscapeAll(text), "", marker);
      if cut == "\"" then "" else cut
    else Trimmed(text, "", marker)
  }

  /**
   What is delivered of containers under way at a path; None where the cleaning throws. The string
   under way, a key or a value, is `text`; `lead` is what healing put in front of its marker.
   */
  function Delivers(p: Paths, marker: string, lead: string, fs: seq<Frame>, key: bool, text: string, path: Path): Option<Json>
    requires fs != [] && HoleFits(fs, key)
    decreases |fs|
  {
    if path in p.args then Some(Str(Trimmed(Dumped(fs, key, text), lead, marker)))
    else if path in p.contents then None
    else match fs[0]
      case ArrayFrame(items) =>
        if ItemsMisplaced(p, items, path) then None
        else if |fs| == 1 then Some(Arr(ItemsDumpedAt(p, items, path)))
        else WithItem(ItemsDumpedAt(p, items, path), Delivers(p, marker, lead, fs[1..], key, text, path))
      case ObjectFrame(members, name) =>
        if MembersMisplaced(p, members, path) then None
        else if |fs| == 1 then Some(Obj(MembersDumpedAt(p, members, path) + LastText(p, marker, lead, name, key, text, path)))
        else WithMember(MembersDumpedAt(p, members, path), name, Delivers(p, marker, lead, fs[1..], key, text, path + [name]))
  }

  /** The member whose string value is under way: delivered if it is content and the marker is in the string itself. */
  function LastText(p: Paths, marker: string, lead: string, name: string, key: bool, text: string, path: Path): seq<Member> {
    if !key && lead == "" && path + [name] in p.contents then [Member(name, Str(StringDelivered(p, marker, text, path + [name])))]
    else []
  }

  function WithItem(items: seq<Json>, v: Option<Json>): Option<Json> {
    match v
    case None => None
    case Some(last) => Some(Arr(items + [last]))
  }

  function WithMember(ms: seq<Member>, name: string, v: Option<Json>): Option<Json> {
    match v
    case None => None
    case Some(last) => Some(Obj(ms + [Member(name, last)]))
  }

  // ----- a value under way from the outside

  lemma {:induction false} CloseOuter(fs: seq<Frame>, v: Json)
    requires fs != []
    ensures CloseAll(fs, v) == Closed(Added(fs[0], CloseAll(fs[1..], v)))
    decreases |fs|
  {
    if |fs| == 1 {
      assert fs[..0] == [] && fs[1..] == [];
    } else {
      var w := Closed(Added(fs[|fs| - 1], v));
      CloseOuter(fs[..|fs| - 1], w);
      assert fs[..|fs| - 1][1..] == fs[1..][..|fs| - 2];
    }
  }

  lemma HoleOuter(fs: seq<Frame>, key: bool, text: string, one: string)
    requires fs != [] && HoleFits(fs, key)
    ensures |fs| > 1 ==> HoleFits(fs[1..], key) && Hole(fs, key, text, one) == Closed(Added(fs[0], Hole(fs[1..], key, text, one)))
    ensures |fs| == 1 && !key ==> Hole(fs, key, text, one) == Closed(Added(fs[0], Str(text)))
    ensures |fs| == 1 && key ==> Hole(fs, key, text, one) == Closed(Added(fs[0].(key := text), Num(one)))
  {
    hide CloseAll, Added, Closed;
    if key {
      var to := Renamed(fs, text);
      CloseOuter(to, Num(one));
      if |fs| > 1 {
        assert to[1..] == Renamed(fs[1..], text) && to[0] == fs[0];
      } else {
        assert to == [fs[0].(key := text)] && to[1..] == [];
        NothingClosed(Num(one));
      }
    } else {
      CloseOuter(fs, Str(text));
      if |fs| == 1 {
        assert fs[1..] == [];
        NothingClosed(Str(text));
      }
    }
  }

  lemma NothingClosed(v: Json)
    ensures CloseAll([], v) == v
  {
  }

  lemma {:induction false} OpenOuter(fs: seq<Frame>)
    requires fs != []
    ensures OpenText(fs) == FrameText(fs[0]) + OpenText(fs[1..])
    decreases |fs|
  {
    hide FrameText;
    if |fs| == 1 {
      assert fs[..0] == [] && fs[1..] == [] && OpenText([]) == "";
      assert "" + FrameText(fs[0]) == FrameText(fs[0]) + "";
    } else {
      OpenOuter(fs[..|fs| - 1]);
      assert fs[..|fs| - 1][1..] == fs[1..][..|fs| - 2];
      assert FrameText(fs[0]) + OpenText(fs[1..][..|fs| - 2]) + FrameText(fs[|fs| - 1])
          == FrameText(fs[0]) + (OpenText(fs[1..][..|fs| - 2]) + FrameText(fs[|fs| - 1]));
    }
  }

  lemma BeforeOuter(fs: seq<Frame>, key: bool)
    requires |fs| > 1 && HoleFits(fs, key)
    ensures HoleFits(fs[1..], key) && Before(fs, key) == FrameText(fs[0]) + Before(fs[1..], key)
  {
    hide FrameText, HeadText, OpenText;
    if key {
      OpenOuter(fs[..|fs| - 1]);
      assert fs[..|fs| - 1][1..] == fs[1..][..|fs| - 2];
      var mid, head := OpenText(fs[1..][..|fs| - 2]), HeadText(fs[|fs| - 1]);
      assert FrameText(fs[0]) + mid + head == FrameText(fs[0]) + (mid + head);
    } else {
      OpenOuter(fs);
    }
  }

  lemma DumpedOuter(fs: seq<Frame>, key: bool, text: string)
    requires |fs| > 1 && HoleFits(fs, key)
    ensures HoleFits(fs[1..], key) && Dumped(fs, key, text) == FrameText(fs[0]) + Dumped(fs[1..], key, text)
  {
    hide FrameText, Before, EscapeAll;
    BeforeOuter(fs, key);
    var b, e := Before(fs[1..], key), EscapeAll(text);
    assert FrameText(fs[0]) + b + "\"" + e == FrameText(fs[0]) + (b + "\"" + e);
  }

  /** It begins with a bracket, and is long enough for a lead. */
  lemma DumpedBegins(fs: seq<Frame>, key: bool, text: string)
    requires fs != [] && HoleFits(fs, key)
    ensures var x := Dumped(fs, key, text); |x| >= 2 && x[0] in "[{"
  {
    hide DumpItems, DumpMembers, EscapeAll, DumpString;
    if |fs| > 1 {
      DumpedOuter(fs, key, text);
      hide Before;
    } else {
      OpenOuter(fs);
      assert fs[..0] == [] && OpenText([]) == "";
    }
  }

  lemma LeadFitsInner(fs: seq<Frame>, key: bool, text: string, lead: string)
    requires |fs| > 1 && HoleFits(fs, key) && IsLead(lead) && Suffix(Dumped(fs, key, text), lead)
    ensures HoleFits(fs[1..], key) && Suffix(Dumped(fs[1..], key, text), lead)
  {
    hide Dumped, FrameText, HoleFits, IsLead, Suffix;
    DumpedOuter(fs, key, text);
    DumpedBegins(fs[1..], key, text);
    LeadShort(lead);
    SuffixInner(FrameText(fs[0]), Dumped(fs[1..], key, text), lead);
  }

  lemma LeadShort(lead: string)
    requires IsLead(lead)
    ensures |lead| <= 2
  {
  }

  lemma SuffixInner(a: string, b: string, e: string)
    requires Suffix(a + b, e) && |e| <= |b|
    ensures Suffix(b, e)
  {
    assert (a + b)[|a + b| - |e|..] == b[|b| - |e|..];
  }

  // ----- dumped arguments

  lemma FindIgnoresTail(x: string, lead: string, marker: string, y: string)
    requires Suffix(x, lead)
    ensures Find(x + marker + y, lead + marker, 0) == Find(x + marker, lead + marker, 0)
    ensures var at := Find(x + marker, lead + marker, 0); at.Some? && at.value <= |x|
  {
    var dump, place := lead + marker, |x| - |lead|;
    assert (x + marker)[place..place + |dump|] == dump;
    assert Occurs(x + marker, dump, place);
    forall k: nat | k <= place
      ensures Occurs(x + marker + y, dump, k) <==> Occurs(x + marker, dump, k)
    {
      assert (x + marker + y)[k..k + |dump|] == (x + marker)[k..k + |dump|];
    }
  }

  lemma TrimmedDump(x: string, lead: string, marker: string, y: string)
    requires Suffix(x, lead)
    ensures var at := Find(x + marker + y, lead + marker, 0);
            at.Some? && at.value <= |x| && (x + marker + y)[..at.value] == Trimmed(x, lead, marker)
  {
    hide Suffix;
    FindIgnoresTail(x, lead, marker, y);
    var at := Find(x + marker, lead + marker, 0).value;
    assert (x + marker + y)[..at] == x[..at];
  }

  /** A text that begins with a bracket is no lone quote, however it is cut. */
  lemma NoLoneQuoteLeft(x: string, r: string)
    requires x != "" && x[0] in "[{" && r <= x
    ensures r != "\""
  {
    assert r != "" ==> r[0] == x[0];
  }

  lemma ArgumentsCut(c: Setting, lead: string, fs: seq<Frame>, key: bool, text: string, one: string)
    requires fs != [] && HoleFits(fs, key) && Healed(c, lead) && Suffix(Dumped(fs, key, text), lead)
    ensures DumpedArguments(c, Hole(fs, key, text + c.marker, one)) == (Trimmed(Dumped(fs, key, text), lead, c.marker), true)
  {
    hide Behind, Hole, HoleFits, Dump, Before, DigitMarker, EscapeAll, Find, IsLead, Suffix, Trimmed;
    var x, y := Dumped(fs, key, text), "\"" + Behind(fs, key, one);
    NotEmptyMarker(c, lead);
    HoleSides(fs, key, text, one, c.marker);
    TrimmedDump(x, lead, c.marker, y);
    DumpedBegins(fs, key, text);
    NoLoneQuoteLeft(x, Trimmed(x, lead, c.marker));
  }

  lemma TextCut(c: Setting, text: string, path: Path, found: bool)
    requires Healed(c, "") && path in c.paths.contents
    ensures Clean(c, Str(text + c.marker), path, found) == Cleaned(Str(StringDelivered(c.paths, c.marker, text, path)), path, true)
  {
    hide Dump, EscapeAll, Find, Trimmed, Suffix;
    assert "" + c.marker == c.marker;
    if path in c.paths.args {
      var x := "\"" + EscapeAll(text);
      EscapeAppend(text, c.marker);
      EscapeDigits(c.marker);
      StringDump(text + c.marker);
      assert "\"" + (EscapeAll(text) + c.marker) + "\"" == x + c.marker + "\"";
      NothingEnds(x);
      TrimmedDump(x, "", c.marker, "\"");
    } else {
      NothingEnds(text);
      TrimmedDump(text, "", c.marker, "");
      assert text + c.marker + "" == text + c.marker;
    }
  }

  lemma StringDump(s: string)
    ensures Dump(Str(s)) == "\"" + EscapeAll(s) + "\""
  {
  }

  lemma NothingEnds(x: string)
    ensures Suffix(x, "")
  {
  }

  // ----- the cleaning delivers it

  lemma FrontUnmarked(c: Setting, lead: string, f: Frame)
    requires Healed(c, lead) && AllUnseen(FrameStrings(f), c.marker) && TextsClear(FrameNumbers(f), c.marker)
    ensures f.ArrayFrame? ==> ItemsUnmarked(c, lead, f.items)
    ensures f.ObjectFrame? ==> MembersUnmarked(c, lead, f.members)
  {
    hide Contains, DigitMarker, EscapeAll, Faithful, FaithfulText, ItemsStrings, ItemsNumbers, MembersStrings,
      MembersNumbers, Unseen;
    NotEmptyMarker(c, lead);
    forall s | s in FrameStrings(f)
      ensures FaithfulText(s, c.marker) && !Contains(s, c.marker)
    {
      UnseenIsFaithful(s, c.marker);
    }
    match f
    case ArrayFrame(items) =>
      MarkerInItems(items, c.marker);
      FaithfulItems(items, c.marker);
    case ObjectFrame(members, _) =>
      MarkerInMembers(members, c.marker);
      FaithfulMembers(members, c.marker);
  }

  lemma NotEmptyMarker(c: Setting, lead: string)
    requires Healed(c, lead)
    ensures c.marker != ""
  {
  }

  /** All strings and numbers of the containers under way are free of the marker. */
  predicate Clear(fs: seq<Frame>, marker: string) {
    AllUnseen(FramesStrings(fs), marker) && TextsClear(FramesNumbers(fs), marker)
  }

  lemma {:induction false} ClearParts(fs: seq<Frame>, marker: string)
    requires fs != [] && Clear(fs, marker)
    ensures AllUnseen(FrameStrings(fs[0]), marker) && TextsClear(FrameNumbers(fs[0]), marker) && Clear(fs[1..], marker)
    decreases |fs|
  {
    hide FrameStrings, FrameNumbers, Unseen, NumberText, Contains;
    if |fs| == 1 {
      assert fs[1..] == [];
    } else {
      ClearParts(fs[..|fs| - 1], marker);
      assert fs[..|fs| - 1][1..] == fs[1..][..|fs| - 2];
    }
  }

  /** The loop over the members, at the last of them. */
  lemma LastMember(c: Setting, m: Member, path: Path, found: bool)
    ensures var r := CleanMembers(c, [m], path, found);
            && (Contains(m.key, c.marker) ==> r == CleanedMembers([], path, true))
            && (!Contains(m.key, c.marker) && m.value.Str? && Contains(m.value.s, c.marker) ==>
                  if path + [m.key] in c.paths.contents && c.healed == c.dumpMarker then
                    var v := Clean(c, m.value, path + [m.key], true);
                    if v.Thrown? then r.ThrownMembers? else r == CleanedMembers([Member(m.key, v.value)], v.path, v.found)
                  else r == CleanedMembers([], path + [m.key], true))
            && (!Contains(m.key, c.marker) && !m.value.Str? ==>
                  var v := Clean(c, m.value, path + [m.key], found);
                  if v.Thrown? then r.ThrownMembers?
                  else r.CleanedMembers? && r.members == [Member(m.key, v.value)] && r.found == v.found)
  {
    hide Clean, Contains;
    assert [m][1..] == [];
    if !m.value.Str? && Clean(c, m.value, path + [m.key], found).Cleaned? {
      var v := Clean(c, m.value, path + [m.key], found);
      assert [Member(m.key, v.value)] + [] == [Member(m.key, v.value)];
    }
  }

  lemma LastItem(c: Setting, v: Json, path: Path, found: bool)
    ensures var r := CleanItems(c, [v], path, found);
            && (v.Str? && Contains(v.s, c.marker) ==> r == CleanedItems([], path, true))
            && (!v.Str? ==>
                  var w := Clean(c, v, path, found);
                  if w.Thrown? then r.ThrownItems? else r == CleanedItems([w.value], w.path, w.found))
  {
    hide Clean, Contains;
    assert [v][1..] == [];
    if !v.Str? && Clean(c, v, path, found).Cleaned? {
      var w := Clean(c, v, path, found);
      assert [w.value] + [] == [w.value];
    }
  }

  /** What the recursion does is what is delivered: value, flag and exceptions. */
  predicate DoneAs(r: Cleaned, want: Option<Json>) {
    match want
    case None => r.Thrown?
    case Some(v) => r.Cleaned? && r.value == v && r.found
  }

  /** What is delivered of a value with the marker in the string under way, wherever the recursion meets it. */
  lemma {:induction false} HoleDelivers(
    c: Setting, lead: string, fs: seq<Frame>, key: bool, text: string, one: string, path: Path, found: bool)
    requires fs != [] && HoleFits(fs, key) && Healed(c, lead) && Clear(fs, c.marker) && Suffix(Dumped(fs, key, text), lead)
    ensures DoneAs(Clean(c, Hole(fs, key, text + c.marker, one), path, found), Delivers(c.paths, c.marker, lead, fs, key, text, path))
    decreases |fs|, 2
  {
    hide Clear, Dumped, DumpedArguments, Healed, Hole, HoleFits, Trimmed;
    ArgumentsCut(c, lead, fs, key, text, one);
    HoleOuter(fs, key, text + c.marker, one);
    if path !in c.paths.args && path !in c.paths.contents {
      if fs[0].ArrayFrame? {
        ArrayDelivers(c, lead, fs, key, text, one, path, found);
      } else {
        ObjectDelivers(c, lead, fs, key, text, one, path, found);
      }
    }
  }

  lemma InnerHole(fs: seq<Frame>, key: bool, text: string, one: string)
    requires fs != [] && HoleFits(fs, key)
    ensures Hole(fs, key, text, one).Obj? || Hole(fs, key, text, one).Arr?
  {
    hide CloseAll;
    HoleContainer(fs, key, text, one);
  }

  lemma {:induction false} ArrayDelivers(
    c: Setting, lead: string, fs: seq<Frame>, key: bool, text: string, one: string, path: Path, found: bool)
    requires fs != [] && HoleFits(fs, key) && Healed(c, lead) && Clear(fs, c.marker) && Suffix(Dumped(fs, key, text), lead)
    requires path !in c.paths.args && path !in c.paths.contents && fs[0].ArrayFrame?
    ensures DoneAs(Clean(c, Hole(fs, key, text + c.marker, one), path, found), Delivers(c.paths, c.marker, lead, fs, key, text, path))
    decreases |fs|, 1
  {
    hide Clear, Contains, Dumped, Hole, ItemsDumpedAt, ItemsMisplaced, Clean;
    var items := fs[0].items;
    HoleOuter(fs, key, text + c.marker, one);
    ClearParts(fs, c.marker);
    FrontUnmarked(c, lead, fs[0]);
    var v := if |fs| == 1 then Str(text + c.marker) else Hole(fs[1..], key, text + c.marker, one);
    ItemsKeep(c, lead, items, [v], path, found);
    LastItem(c, v, path, found);
    ArrayClean(c, items + [v], path, found);
    if |fs| == 1 {
      EndsInMarker(text, c.marker);
      assert ItemsDumpedAt(c.paths, items, path) + [] == ItemsDumpedAt(c.paths, items, path);
    } else {
      hide Healed, HoleFits;
      InnerHole(fs[1..], key, text + c.marker, one);
      LeadFitsInner(fs, key, text, lead);
      HoleDelivers(c, lead, fs[1..], key, text, one, path, found);
    }
  }

  lemma ArrayClean(c: Setting, items: seq<Json>, path: Path, found: bool)
    requires path !in c.paths.args && path !in c.paths.contents
    ensures Clean(c, Arr(items), path, found)
            == match CleanItems(c, items, path, found)
               case ThrownItems => Thrown
               case CleanedItems(js, p, f) => Cleaned(Arr(js), p, f)
  {
    hide CleanItems;
  }

  lemma ObjectClean(c: Setting, ms: seq<Member>, path: Path, found: bool)
    requires path !in c.paths.args && path !in c.paths.contents
    ensures Clean(c, Obj(ms), path, found)
            == match CleanMembers(c, ms, path, found)
               case ThrownMembers => Thrown
               case CleanedMembers(js, p, f) => Cleaned(Obj(js), p, f)
  {
    hide CleanMembers;
  }

  /** The member under way. */
  function HoleMember(fs: seq<Frame>, key: bool, text: string, one: string): Member
    requires fs != [] && fs[0].ObjectFrame? && HoleFits(fs, key)
  {
    if |fs| > 1 then
      HoleOuter(fs, key, text, one);
      Member(fs[0].key, Hole(fs[1..], key, text, one))
    else if key then Member(text, Num(one))
    else Member(fs[0].key, Str(text))
  }

  lemma {:induction false} ObjectDelivers(
    c: Setting, lead: string, fs: seq<Frame>, key: bool, text: string, one: string, path: Path, found: bool)
    requires fs != [] && HoleFits(fs, key) && Healed(c, lead) && Clear(fs, c.marker) && Suffix(Dumped(fs, key, text), lead)
    requires path !in c.paths.args && path !in c.paths.contents && fs[0].ObjectFrame?
    ensures DoneAs(Clean(c, Hole(fs, key, text + c.marker, one), path, found), Delivers(c.paths, c.marker, lead, fs, key, text, path))
    decreases |fs|, 1
  {
    hide Clear, Contains, Dumped, Hole, MembersDumpedAt, MembersMisplaced, Clean, CleanMembers;
    var members := fs[0].members;
    HoleOuter(fs, key, text + c.marker, one);
    ClearParts(fs, c.marker);
    FrontUnmarked(c, lead, fs[0]);
    var m := HoleMember(fs, key, text + c.marker, one);
    MembersKeep(c, lead, members, [m], path, found);
    ObjectClean(c, members + [m], path, found);
    MemberDelivers(c, lead, fs, key, text, one, path, found);
    assert MembersDumpedAt(c.paths, members, path) + [] == MembersDumpedAt(c.paths, members, path);
  }

  /** What the loop makes of the member under way. */
  function MemberDone(c: Setting, lead: string, fs: seq<Frame>, key: bool, text: string, path: Path): Option<seq<Member>>
    requires fs != [] && fs[0].ObjectFrame? && HoleFits(fs, key)
  {
    if |fs| == 1 then Some(LastText(c.paths, c.marker, lead, fs[0].key, key, text, path))
    else match Delivers(c.paths, c.marker, lead, fs[1..], key, text, path + [fs[0].key])
      case None => None
      case Some(v) => Some([Member(fs[0].key, v)])
  }

  lemma {:induction false} MemberDelivers(
    c: Setting, lead: string, fs: seq<Frame>, key: bool, text: string, one: string, path: Path, found: bool)
    requires fs != [] && HoleFits(fs, key) && Healed(c, lead) && Clear(fs, c.marker) && Suffix(Dumped(fs, key, text), lead)
    requires fs[0].ObjectFrame?
    ensures var r := CleanMembers(c, [HoleMember(fs, key, text + c.marker, one)], path, found);
            match MemberDone(c, lead, fs, key, text, path)
            case None => r.ThrownMembers?
            case Some(ms) => r.CleanedMembers? && r.members == ms && r.found
    decreases |fs|, 0
  {
    hide Clean, CleanMembers, Clear, Contains, Delivers, Dumped, Healed, Hole, StringDelivered;
    var m := HoleMember(fs, key, text + c.marker, one);
    LastMember(c, m, path, found);
    EndsInMarker(text, c.marker);
    if |fs| > 1 {
      NameClear(fs, c.marker, c, lead);
      InnerHole(fs[1..], key, text + c.marker, one);
      LeadFitsInnerHealed(c, fs, key, text, lead);
      ClearParts(fs, c.marker);
      HoleDelivers(c, lead, fs[1..], key, text, one, path + [m.key], found);
    } else if !key {
      NameClear(fs, c.marker, c, lead);
      NoLead(c, lead);
      if lead == "" && path + [m.key] in c.paths.contents {
        TextCut(c, text, path + [m.key], true);
      }
    }
  }

  lemma LeadFitsInnerHealed(c: Setting, fs: seq<Frame>, key: bool, text: string, lead: string)
    requires |fs| > 1 && HoleFits(fs, key) && Healed(c, lead) && Suffix(Dumped(fs, key, text), lead)
    ensures HoleFits(fs[1..], key) && Suffix(Dumped(fs[1..], key, text), lead)
  {
    LeadFitsInner(fs, key, text, lead);
  }

  lemma NoLead(c: Setting, lead: string)
    requires Healed(c, lead)
    ensures c.healed == c.dumpMarker <==> lead == ""
  {
    if lead == "" {
      assert "" + c.marker == c.marker;
    } else {
      assert |lead + c.marker| > |c.marker|;
    }
  }

  lemma NameClear(fs: seq<Frame>, marker: string, c: Setting, lead: string)
    requires fs != [] && fs[0].ObjectFrame? && Clear(fs, marker) && Healed(c, lead) && marker == c.marker
    ensures !Contains(fs[0].key, marker)
  {
    hide Clear, Contains, Unseen, MembersStrings;
    ClearParts(fs, marker);
    assert fs[0].key in FrameStrings(fs[0]);
    UnseenIsFaithful(fs[0].key, marker);
  }

  // ----- it has no marker

  lemma {:induction false} DumpedUnmarked(c: Setting, j: Json, path: Path)
    requires DigitMarker(c.marker) && Faithful(j, c.marker) && !HasMarker(j, c.marker)
    ensures !HasMarker(DumpedAt(c.paths, j, path), c.marker)
    decreases j, 1
  {
    hide Contains, Dump;
    DumpShows(j, c.marker);
    match j
    case Arr(items) => ItemsDumpedUnmarked(c, items, path);
    case Obj(members) => MembersDumpedUnmarked(c, members, path);
    case _ =>
  }

  lemma {:induction false} ItemsDumpedUnmarked(c: Setting, items: seq<Json>, path: Path)
    requires DigitMarker(c.marker) && !ItemsHave(items, c.marker) && forall i :: 0 <= i < |items| ==> Faithful(items[i], c.marker)
    ensures !ItemsHave(ItemsDumpedAt(c.paths, items, path), c.marker)
    decreases items, 1
  {
    hide Contains, DumpedAt, Faithful, HasMarker;
    if items != [] {
      DumpedUnmarked(c, items[0], path);
      ItemsDumpedUnmarked(c, items[1..], path);
    }
  }

  lemma {:induction false} MembersDumpedUnmarked(c: Setting, ms: seq<Member>, path: Path)
    requires DigitMarker(c.marker) && !MembersHave(ms, c.marker) && forall i :: 0 <= i < |ms| ==> Faithful(ms[i].value, c.marker)
    ensures !MembersHave(MembersDumpedAt(c.paths, ms, path), c.marker)
    decreases ms, 1
  {
    hide Contains, DumpedAt, Faithful, HasMarker;
    if ms != [] {
      DumpedUnmarked(c, ms[0].value, path + [ms[0].key]);
      MembersDumpedUnmarked(c, ms[1..], path);
    }
  }

  /** A number that does not show the marker. */
  function OtherDigit(marker: string): string {
    if marker == "0" then "1" else "0"
  }

  lemma OtherDigitClear(marker: string)
    requires DigitMarker(marker)
    ensures NumberText(OtherDigit(marker)) && !Contains(OtherDigit(marker), marker)
  {
    var n := OtherDigit(marker);
    assert n[1..] == [] && Run(START, n) == Step(START, n[0]);
  }

  lemma DumpedClear(fs: seq<Frame>, key: bool, text: string, marker: string)
    requires HoleFits(fs, key) && DigitMarker(marker) && Clear(fs, marker) && Unseen(text, marker)
    ensures !Contains(Dumped(fs, key, text), marker)
  {
    hide Before, Behind, Contains, DigitMarker, Dump, EscapeAll, FramesNumbers, FramesStrings, Hole, HoleFits,
      NumberText, OtherDigit, Unseen;
    var one := OtherDigit(marker);
    OtherDigitClear(marker);
    HoleStrings(fs, key, text + marker, one);
    HoleFacts(fs, key, text, one, marker);
    HoleSides(fs, key, text, one, marker);
    PartsClear(Dumped(fs, key, text), "\"" + Behind(fs, key, one), marker);
  }

  lemma TrimmedClear(x: string, lead: string, marker: string)
    requires !Contains(x, marker)
    ensures !Contains(Trimmed(x, lead, marker), marker)
  {
    hide Contains, Find;
    PrefixHasNot(x, marker, |Trimmed(x, lead, marker)|);
  }

  lemma TextClear(c: Setting, text: string, path: Path)
    requires DigitMarker(c.marker) && Unseen(text, c.marker)
    ensures !Contains(StringDelivered(c.paths, c.marker, text, path), c.marker)
  {
    hide Contains, EscapeAll, Trimmed;
    UnseenIsFaithful(text, c.marker);
    TrimmedClear(text, "", c.marker);
    NotEmpty(c.marker);
    Separated("", '"', EscapeAll(text), c.marker);
    assert "" + ['"'] + EscapeAll(text) == "\"" + EscapeAll(text);
    TrimmedClear("\"" + EscapeAll(text), "", c.marker);
  }

  lemma {:induction false} ItemsHaveLast(items: seq<Json>, v: Json, marker: string)
    ensures ItemsHave(items + [v], marker) <==> ItemsHave(items, marker) || HasMarker(v, marker)
    decreases |items|
  {
    hide HasMarker;
    if items == [] {
      assert [] + [v] == [v] && [v][1..] == [];
    } else {
      assert (items + [v])[1..] == items[1..] + [v];
      ItemsHaveLast(items[1..], v, marker);
    }
  }

  lemma {:induction false} MembersHaveLast(ms: seq<Member>, m: Member, marker: string)
    ensures MembersHave(ms + [m], marker) <==> MembersHave(ms, marker) || Contains(m.key, marker) || HasMarker(m.value, marker)
    decreases |ms|
  {
    hide Contains, HasMarker;
    if ms == [] {
      assert [] + [m] == [m] && [m][1..] == [];
    } else {
      assert (ms + [m])[1..] == ms[1..] + [m];
      MembersHaveLast(ms[1..], m, marker);
    }
  }

  lemma FrontDumpedUnmarked(c: Setting, lead: string, f: Frame, path: Path)
    requires Healed(c, lead) && AllUnseen(FrameStrings(f), c.marker) && TextsClear(FrameNumbers(f), c.marker)
    ensures f.ArrayFrame? ==> !ItemsHave(ItemsDumpedAt(c.paths, f.items, path), c.marker)
    ensures f.ObjectFrame? ==> !MembersHave(MembersDumpedAt(c.paths, f.members, path), c.marker)
  {
    hide Contains, Faithful, FrameStrings, FrameNumbers, ItemsDumpedAt, MembersDumpedAt, Unseen;
    FrontUnmarked(c, lead, f);
    match f
    case ArrayFrame(items) => ItemsDumpedUnmarked(c, items, path);
    case ObjectFrame(members, _) => MembersDumpedUnmarked(c, members, path);
  }

  /** No key, string or dumped arguments of what is delivered contain the marker. */
  lemma {:induction false} DeliversUnmarked(c: Setting, lead: string, fs: seq<Frame>, key: bool, text: string, path: Path)
    requires fs != [] && HoleFits(fs, key) && Healed(c, lead) && Clear(fs, c.marker) && Unseen(text, c.marker)
    ensures var v := Delivers(c.paths, c.marker, lead, fs, key, text, path);
            v.Some? ==> !HasMarker(v.value, c.marker)
    decreases |fs|
  {
    hide Clear, Contains, Dumped, Faithful, Healed, HoleFits, ItemsDumpedAt, MembersDumpedAt, ItemsMisplaced,
      MembersMisplaced, StringDelivered, Trimmed, Unseen;
    HealedDigits(c, lead);
    DumpedClear(fs, key, text, c.marker);
    TrimmedClear(Dumped(fs, key, text), lead, c.marker);
    ClearParts(fs, c.marker);
    FrontDumpedUnmarked(c, lead, fs[0], path);
    if |fs| > 1 {
      InnerFits(fs, key);
    }
    match fs[0]
    case ArrayFrame(items) =>
      if |fs| > 1 {
        DeliversUnmarked(c, lead, fs[1..], key, text, path);
        var v := Delivers(c.paths, c.marker, lead, fs[1..], key, text, path);
        if v.Some? {
          ItemsHaveLast(ItemsDumpedAt(c.paths, items, path), v.value, c.marker);
        }
      }
    case ObjectFrame(members, name) =>
      NameClear(fs, c.marker, c, lead);
      if |fs| > 1 {
        DeliversUnmarked(c, lead, fs[1..], key, text, path + [name]);
        var v := Delivers(c.paths, c.marker, lead, fs[1..], key, text, path + [name]);
        if v.Some? {
          MembersHaveLast(MembersDumpedAt(c.paths, members, path), Member(name, v.value), c.marker);
        }
      } else {
        TextClear(c, text, path + [name]);
        var last := Member(name, Str(StringDelivered(c.paths, c.marker, text, path + [name])));
        MembersHaveLast(MembersDumpedAt(c.paths, members, path), last, c.marker);
        assert MembersDumpedAt(c.paths, members, path) + [] == MembersDumpedAt(c.paths, members, path);
      }
  }

  lemma HealedDigits(c: Setting, lead: string)
    requires Healed(c, lead)
    ensures DigitMarker(c.marker)
  {
  }

  lemma InnerFits(fs: seq<Frame>, key: bool)
    requires |fs| > 1 && HoleFits(fs, key)
    ensures HoleFits(fs[1..], key)
  {
  }

  // ----- from the completed text

  /** A string is under way inside a container. */
  predicate InString(r: Reader) {
    r.st.mode.Text? && r.st.mode.part.Plain? && r.b.frames != [] && HoleFits(r.b.frames, r.st.mode.key)
  }

  /** What is delivered of a text that was kept up to `q` and completed behind `lead`. */
  ghost function DeliveredOf(show: string -> string, p: Paths, marker: string, q: string, lead: string): Option<Json>
    requires Live(q + lead) && InString(ReaderOf(show, q + lead))
  {
    var r := ReaderOf(show, q + lead);
    Delivers(p, marker, lead, r.b.frames, r.st.mode.key, Unescaped(r.b.token), [])
  }

  /** A text in which the marker is fresh, and to which no escape and no number that is shown brings it. */
  ghost predicate Fresh(show: string -> string, s: string, marker: string) {
    DigitMarker(marker) && !Contains(s, marker) && NoUnicodeEscapes(s) && Quiet(show, s, marker)
  }

  lemma FreshPrefix(show: string -> string, s: string, marker: string, n: nat)
    requires Fresh(show, s, marker) && n <= |s|
    ensures Fresh(show, s[..n], marker)
  {
    hide Contains, NoUnicodeEscapes, Quiet;
    PrefixHasNot(s, marker, n);
    PrefixPlain(s, n);
    QuietPrefix(show, s, marker, n);
  }

  lemma HealedDelivers(show: string -> string, c: Setting, q: string, lead: string, tail: string, wanted: seq<Container>)
    requires Healed(c, lead) && Fresh(show, q, c.marker) && TailOf(tail, wanted) && wanted != []
    requires Accepts(q + (lead + c.marker) + tail)
    ensures Live(q + lead) && InString(ReaderOf(show, q + lead))
    ensures var want := DeliveredOf(show, c.paths, c.marker, q, lead);
            && DoneAs(Clean(c, ValueOf(show, q + (lead + c.marker) + tail), [], false), want)
            && (want.Some? ==> !HasMarker(want.value, c.marker))
  {
    hide Accepts, Clean, Contains, Delivers, DigitMarker, HasMarker, Hole, HoleFits, IsLead, Live, NoUnicodeEscapes,
      Quiet, ReaderOf, Run, Suffix, TailOf, TextsClear, AllUnseen, Unescaped, Unseen, ValueOf, FramesNumbers,
      FramesStrings, Before, EscapeAll, Closing, WellEscaped;
    HealedDigits(c, lead);
    MarkerPlace(show, q, lead, c.marker, tail, wanted);
    var r := ReaderOf(show, q + lead);
    var key, text := r.st.mode.key, Unescaped(r.b.token);
    HoleDelivers(c, lead, r.b.frames, key, text, if key then show("1") else "", [], false);
    DeliversUnmarked(c, lead, r.b.frames, key, text, []);
  }
}

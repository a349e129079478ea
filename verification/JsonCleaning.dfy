/**
 Removing what healing added from a parsed value, and dumping the arguments in it
 (try_consume_json_with_dumped_args in common/chat-parser.cpp).
 */
module JsonCleaning {
  import opened Base
  import opened JsonDump
  import opened JsonPartialResults

  type Path = seq<string>

  /** Where arguments are dumped, and where strings are content. */
  datatype Paths = Paths(args: seq<Path>, contents: seq<Path>)

  /**
   What the cleaning looks at: the parser's marker, the marker of the healed value (empty when it was
   parsed whole), its dump marker, and whether the input is partial.
   */
  datatype Setting = Setting(marker: string, healed: string, dumpMarker: string, isPartial: bool, paths: Paths)

  /** A cleaned value, with the path and the flag the cleaning leaves behind; or an exception. */
  datatype Cleaned = Cleaned(value: Json, path: Path, found: bool) | Thrown
  datatype CleanedItems = CleanedItems(items: seq<Json>, path: Path, found: bool) | ThrownItems
  datatype CleanedMembers = CleanedMembers(members: seq<Member>, path: Path, found: bool) | ThrownMembers

  /** The text of the arguments; whether the marker was in it. */
  function DumpedArguments(c: Setting, j: Json): (string, bool) {
    var arguments := Dump(j);
    if c.isPartial && c.healed != "" then
      var at := Find(arguments, c.dumpMarker, 0);
      var cut := if at.Some? then arguments[..at.value] else arguments;
      (if cut == "\"" then "" else cut, at.Some?)
    else (arguments, false)
  }

  function Content(c: Setting, s: string): (string, bool) {
    var at := Find(s, c.healed, 0);
    if at.Some? then (s[..at.value], true) else (s, false)
  }

  function Clean(c: Setting, j: Json, path: Path, found: bool): (r: Cleaned)
    ensures r.Cleaned? ==> path <= r.path && (found ==> r.found)
    decreases j, 0
  {
    if path in c.paths.args then
      var (arguments, cut) := DumpedArguments(c, j);
      Cleaned(Str(arguments), path, found || cut)
    else if path in c.paths.contents then
      if !j.Str? then Thrown
      else
        var (content, cut) := Content(c, j.s);
        Cleaned(Str(content), path, found || cut)
    else match j
      case Obj(members) =>
        (match CleanMembers(c, members, path, found)
         case ThrownMembers => Thrown
         case CleanedMembers(ms, p, f) => Cleaned(Obj(ms), p, f))
      case Arr(items) =>
        (match CleanItems(c, items, path, found)
         case ThrownItems => Thrown
         case CleanedItems(js, p, f) => Cleaned(Arr(js), p, f))
      case _ => Cleaned(j, path, found)
  }

  /** The loop over the members of an object, which stops at the marker. */
  function CleanMembers(c: Setting, ms: seq<Member>, path: Path, found: bool): (r: CleanedMembers)
    ensures r.CleanedMembers? ==> path <= r.path && (found ==> r.found)
    decreases ms, 1
  {
    if ms == [] then CleanedMembers([], path, found)
    else
      var m := ms[0];
      var inner := path + [m.key];
      if Contains(m.key, c.marker) then CleanedMembers([], path, true)
      else if m.value.Str? && Contains(m.value.s, c.marker) then
        if inner in c.paths.contents && c.healed == c.dumpMarker then
          match Clean(c, m.value, inner, true)
          case Thrown => ThrownMembers
          case Cleaned(v, p, f) => CleanedMembers([Member(m.key, v)], p, f)
        else CleanedMembers([], inner, true)
      else
        match if m.value.Str? then Cleaned(m.value, inner, found) else Clean(c, m.value, inner, found)
        case Thrown => ThrownMembers
        case Cleaned(v, p, f) =>
          match CleanMembers(c, ms[1..], p[..|p| - 1], f)
          case ThrownMembers => ThrownMembers
          case CleanedMembers(rest, q, g) => CleanedMembers([Member(m.key, v)] + rest, q, g)
  }

  /** The loop over the items of an array, which stops at the marker. */
  function CleanItems(c: Setting, items: seq<Json>, path: Path, found: bool): (r: CleanedItems)
    ensures r.CleanedItems? ==> path <= r.path && (found ==> r.found)
    decreases items, 1
  {
    if items == [] then CleanedItems([], path, found)
    else if items[0].Str? && Contains(items[0].s, c.marker) then CleanedItems([], path, true)
    else
      match Clean(c, items[0], path, found)
      case Thrown => ThrownItems
      case Cleaned(v, p, f) =>
        match CleanItems(c, items[1..], p, f)
        case ThrownItems => ThrownItems
        case CleanedItems(rest, q, g) => CleanedItems([v] + rest, q, g)
  }

  // ----- where the marker is

  /** Some key or string contains the marker. */
  predicate HasMarker(j: Json, marker: string)
    decreases j, 0
  {
    match j
    case Str(s) => Contains(s, marker)
    case Arr(items) => ItemsHave(items, marker)
    case Obj(members) => MembersHave(members, marker)
    case _ => false
  }

  predicate ItemsHave(items: seq<Json>, marker: string)
    decreases items, 1
  {
    items != [] && (HasMarker(items[0], marker) || ItemsHave(items[1..], marker))
  }

  predicate MembersHave(ms: seq<Member>, marker: string)
    decreases ms, 1
  {
    ms != [] && (Contains(ms[0].key, marker) || HasMarker(ms[0].value, marker) || MembersHave(ms[1..], marker))
  }

  predicate FaithfulText(s: string, marker: string) {
    Contains(EscapeAll(s), marker) ==> Contains(s, marker)
  }

  /** The dump of a part shows the marker only where a key or string has it: no number, no escape does. */
  predicate Faithful(j: Json, marker: string)
    decreases j, 0
  {
    match j
    case Num(text) => NumberText(text) && !Contains(text, marker)
    case Str(s) => FaithfulText(s, marker)
    case Arr(items) => forall i :: 0 <= i < |items| ==> Faithful(items[i], marker)
    case Obj(members) =>
      forall i :: 0 <= i < |members| ==> FaithfulText(members[i].key, marker) && Faithful(members[i].value, marker)
    case _ => true
  }

  lemma ContainsAt(s: string, p: string, i: nat)
    requires Occurs(s, p, i)
    ensures Contains(s, p)
  {
  }

  lemma ContainsPart(a: string, b: string, d: string, p: string)
    requires Contains(b, p)
    ensures Contains(a + b + d, p)
  {
    var i := Find(b, p, 0).value;
    assert (a + b + d)[|a| + i..|a| + i + |p|] == b[i..i + |p|];
    ContainsAt(a + b + d, p, |a| + i);
  }

  /** A run of digits does not go across a character that is no digit. */
  lemma SplitContains(a: string, x: char, b: string, marker: string)
    requires DigitMarker(marker) && !IsDigit(x) && Contains(a + [x] + b, marker)
    ensures Contains(a, marker) || Contains(b, marker)
  {
    var s := a + [x] + b;
    var i := Find(s, marker, 0).value;
    assert forall k :: 0 <= k < |marker| ==> marker[k] in marker;
    if i + |marker| <= |a| {
      assert s[i..i + |marker|] == a[i..i + |marker|];
      ContainsAt(a, marker, i);
    } else if i > |a| {
      assert s[i..i + |marker|] == b[i - |a| - 1..i - |a| - 1 + |marker|];
      ContainsAt(b, marker, i - |a| - 1);
    } else {
      OccursWithin(s, marker, i, |a| - i);
    }
  }

  lemma {:induction false} EscapeAppend(a: string, b: string)
    ensures EscapeAll(a + b) == EscapeAll(a) + EscapeAll(b)
    decreases |a|
  {
    if a == [] {
      assert a + b == b;
    } else {
      assert (a + b)[1..] == a[1..] + b;
      EscapeAppend(a[1..], b);
    }
  }

  lemma EscapeDigit(c: char)
    requires IsDigit(c)
    ensures Escape(c) == [c]
  {
  }

  lemma {:induction false} EscapeDigits(s: string)
    requires forall c :: c in s ==> IsDigit(c)
    ensures EscapeAll(s) == s
    decreases |s|
  {
    hide Escape, IsDigit;
    if s != [] {
      assert s[0] in s;
      EscapeDigit(s[0]);
      assert forall c :: c in s[1..] ==> c in s;
      EscapeDigits(s[1..]);
      assert s == [s[0]] + s[1..];
    }
  }

  /** A string that contains the marker shows it in its dump. */
  lemma EscapeKeeps(s: string, marker: string)
    requires DigitMarker(marker) && Contains(s, marker)
    ensures Contains(EscapeAll(s), marker)
  {
    var i := Find(s, marker, 0).value;
    var a, b := s[..i], s[i + |marker|..];
    assert s == a + marker + b;
    EscapeAppend(a + marker, b);
    EscapeAppend(a, marker);
    EscapeDigits(marker);
    ContainsAt(marker, marker, 0);
    ContainsPart(EscapeAll(a), marker, EscapeAll(b), marker);
  }

  lemma StringShows(s: string, marker: string)
    requires DigitMarker(marker)
    ensures Contains(s, marker) ==> Contains(DumpString(s), marker)
    ensures Contains(DumpString(s), marker) ==> Contains(EscapeAll(s), marker)
  {
    if Contains(s, marker) {
      EscapeKeeps(s, marker);
      ContainsPart("\"", EscapeAll(s), "\"", marker);
    }
    if Contains(DumpString(s), marker) {
      var inner := EscapeAll(s) + "\"";
      assert DumpString(s) == "" + ['"'] + inner;
      SplitContains("", '"', inner, marker);
      if Contains(inner, marker) {
        assert inner == EscapeAll(s) + ['"'] + "";
        SplitContains(EscapeAll(s), '"', "", marker);
      }
    }
  }

  lemma NotEmpty(marker: string)
    requires marker != []
    ensures !Contains("", marker)
  {
  }

  /** Concatenation with a separator shows the marker exactly if one side does. */
  lemma Separated(a: string, x: char, b: string, marker: string)
    requires DigitMarker(marker) && !IsDigit(x)
    ensures Contains(a + [x] + b, marker) <==> Contains(a, marker) || Contains(b, marker)
  {
    if Contains(a, marker) {
      ContainsPart("", a, [x] + b, marker);
      assert "" + a + ([x] + b) == a + [x] + b;
    }
    if Contains(b, marker) {
      ContainsPart(a + [x], b, "", marker);
      assert a + [x] + b + "" == a + [x] + b;
    }
    if Contains(a + [x] + b, marker) {
      SplitContains(a, x, b, marker);
    }
  }

  lemma NoDigits(s: string, marker: string)
    requires DigitMarker(marker) && forall k :: 0 <= k < |s| ==> !IsDigit(s[k])
    ensures !Contains(s, marker)
  {
    assert marker[0] in marker;
    if Contains(s, marker) {
      OccursWithin(s, marker, Find(s, marker, 0).value, 0);
    }
  }

  /** The dump shows the marker exactly if some key or string has it. */
  lemma {:induction false} DumpShows(j: Json, marker: string)
    requires DigitMarker(marker) && Faithful(j, marker)
    ensures Contains(Dump(j), marker) <==> HasMarker(j, marker)
    decreases j, 0
  {
    NotEmpty(marker);
    match j
    case Null => NoDigits("null", marker);
    case Bool(b) => NoDigits(Dump(j), marker);
    case Num(text) =>
    case Str(s) => StringShows(s, marker);
    case Arr(items) =>
      ItemsShow(items, marker);
      Bracketed('[', DumpItems(items), ']', marker);
    case Obj(members) =>
      MembersShow(members, marker);
      Bracketed('{', DumpMembers(members), '}', marker);
  }

  lemma Bracketed(x: char, s: string, y: char, marker: string)
    requires DigitMarker(marker) && !IsDigit(x) && !IsDigit(y)
    ensures Contains([x] + s + [y], marker) <==> Contains(s, marker)
  {
    NotEmpty(marker);
    assert [x] + s + [y] == "" + [x] + (s + [y]) && s + [y] == s + [y] + "";
    Separated("", x, s + [y], marker);
    Separated(s, y, "", marker);
  }

  /** A first part and a rest that is empty or begins with a comma. */
  lemma CommaBetween(a: string, rest: string, marker: string)
    requires DigitMarker(marker) && (rest == "" || rest[0] == ',')
    ensures Contains(a + rest, marker) <==> Contains(a, marker) || Contains(rest, marker)
  {
    NotEmpty(marker);
    if rest == "" {
      assert a + rest == a;
    } else {
      assert a + rest == a + [','] + rest[1..] && rest == "" + [','] + rest[1..];
      Separated(a, ',', rest[1..], marker);
      Separated("", ',', rest[1..], marker);
    }
  }

  lemma CommaFirst(a: string, marker: string)
    requires DigitMarker(marker)
    ensures Contains("," + a, marker) <==> Contains(a, marker)
  {
    NotEmpty(marker);
    assert "," + a == "" + [','] + a;
    Separated("", ',', a, marker);
  }

  lemma {:induction false} ItemsShow(items: seq<Json>, marker: string)
    requires DigitMarker(marker) && forall i :: 0 <= i < |items| ==> Faithful(items[i], marker)
    ensures Contains(DumpItems(items), marker) <==> ItemsHave(items, marker)
    ensures Contains(MoreItems(items), marker) <==> ItemsHave(items, marker)
    decreases items, 1
  {
    NotEmpty(marker);
    if items != [] {
      DumpShows(items[0], marker);
      ItemsShow(items[1..], marker);
      CommaBetween(Dump(items[0]), MoreItems(items[1..]), marker);
      CommaFirst(Dump(items[0]) + MoreItems(items[1..]), marker);
    }
  }

  lemma {:induction false} MembersShow(ms: seq<Member>, marker: string)
    requires DigitMarker(marker)
    requires forall i :: 0 <= i < |ms| ==> FaithfulText(ms[i].key, marker) && Faithful(ms[i].value, marker)
    ensures Contains(DumpMembers(ms), marker) <==> MembersHave(ms, marker)
    ensures Contains(MoreMembers(ms), marker) <==> MembersHave(ms, marker)
    decreases ms, 1
  {
    NotEmpty(marker);
    if ms != [] {
      var m := ms[0];
      StringShows(m.key, marker);
      DumpShows(m.value, marker);
      assert DumpMember(m) == DumpString(m.key) + [':'] + Dump(m.value);
      Separated(DumpString(m.key), ':', Dump(m.value), marker);
      MembersShow(ms[1..], marker);
      CommaBetween(DumpMember(m), MoreMembers(ms[1..]), marker);
      CommaFirst(DumpMember(m) + MoreMembers(ms[1..]), marker);
    }
  }

  // ----- what cleaning guarantees

  /** The setting of a value that was healed. */
  predicate Healed(c: Setting, lead: string) {
    && DigitMarker(c.marker) && IsLead(lead)
    && c.healed == c.marker && c.dumpMarker == lead + c.marker && c.isPartial
  }

  /** Wherever the text shows the marker, the lead stands before it. */
  ghost predicate Led(text: string, lead: string, marker: string) {
    forall i: nat :: Occurs(text, marker, i) ==> i >= |lead| && Occurs(text, lead + marker, i - |lead|)
  }

  /** A part of a text that begins with a bracket has the lead inside. */
  lemma LedPart(a: string, part: string, b: string, lead: string, marker: string)
    requires DigitMarker(marker) && IsLead(lead) && Led(a + part + b, lead, marker)
    requires part != [] && part[0] in "[{"
    ensures Led(part, lead, marker)
  {
    hide Contains, DigitMarker, IsLead;
    var text := a + part + b;
    forall i: nat | Occurs(part, marker, i)
      ensures i >= |lead| && Occurs(part, lead + marker, i - |lead|)
    {
      assert text[|a| + i..|a| + i + |marker|] == part[i..i + |marker|];
      assert Occurs(text, marker, |a| + i);
      var at := |a| + i - |lead|;
      assert Occurs(text, lead + marker, at);
      LeadInside(text, part, |a|, lead, marker, i);
      assert part[i - |lead|..i + |marker|] == text[at..at + |lead + marker|];
    }
  }

  /** The bracket is no part of the lead, and no digit. */
  lemma LeadInside(text: string, part: string, at: nat, lead: string, marker: string, i: nat)
    requires DigitMarker(marker) && IsLead(lead) && part != [] && part[0] in "[{"
    requires at + |part| <= |text| && text[at] == part[0] && at + i >= |lead|
    requires Occurs(part, marker, i) && Occurs(text, lead + marker, at + i - |lead|)
    ensures i >= |lead|
  {
    assert marker[0] in marker;
    OccursWithin(part, marker, i, 0);
    if 0 < i < |lead| {
      OccursWithin(text, lead + marker, at + i - |lead|, |lead| - i);
    }
  }

  /** Cutting a text at the first dump marker leaves no marker; there is one to cut at if the text shows the marker. */
  lemma CutText(text: string, lead: string, marker: string)
    requires marker != [] && Led(text, lead, marker)
    ensures var at := Find(text, lead + marker, 0);
            && (at.Some? <==> Contains(text, marker))
            && (at.Some? ==> !Contains(text[..at.value], marker))
  {
    var at := Find(text, lead + marker, 0);
    if Contains(text, marker) {
      assert Occurs(text, lead + marker, Find(text, marker, 0).value - |lead|);
    }
    if at.Some? {
      assert text[at.value + |lead|..at.value + |lead| + |marker|] == text[at.value..at.value + |lead + marker|][|lead|..];
      ContainsAt(text, marker, at.value + |lead|);
      BeforeCut(text, lead, marker, at.value);
    }
  }

  lemma BeforeCut(text: string, lead: string, marker: string, at: nat)
    requires Led(text, lead, marker) && Find(text, lead + marker, 0) == Some(at) && marker != []
    ensures !Contains(text[..at], marker)
  {
    hide Find;
    var found := Find(text[..at], marker, 0);
    if found.Some? {
      OccursInFront(text, marker, at, found.value);
    }
  }

  /** The dumped arguments never show the marker, and the cut is noticed. */
  lemma ArgumentsClean(c: Setting, lead: string, j: Json)
    requires Healed(c, lead) && Faithful(j, c.marker) && Led(Dump(j), lead, c.marker)
    ensures !Contains(DumpedArguments(c, j).0, c.marker)
    ensures DumpedArguments(c, j).1 <==> HasMarker(j, c.marker)
  {
    DumpShows(j, c.marker);
    NotEmpty(c.marker);
    CutText(Dump(j), lead, c.marker);
  }

  /** A string without the marker has nothing to cut. */
  lemma PlainString(c: Setting, lead: string, s: string)
    requires Healed(c, lead) && FaithfulText(s, c.marker) && !Contains(s, c.marker)
    ensures !Contains(DumpedArguments(c, Str(s)).0, c.marker) && !DumpedArguments(c, Str(s)).1
    ensures Content(c, s) == (s, false)
  {
    DumpShows(Str(s), c.marker);
    assert Led(Dump(Str(s)), lead, c.marker);
    ArgumentsClean(c, lead, Str(s));
  }

  /** Scalars show no marker. */
  lemma PlainScalar(c: Setting, lead: string, j: Json)
    requires Healed(c, lead) && Faithful(j, c.marker) && (j.Null? || j.Bool? || j.Num?)
    ensures !Contains(DumpedArguments(c, j).0, c.marker) && !DumpedArguments(c, j).1
  {
    DumpShows(j, c.marker);
    assert Led(Dump(j), lead, c.marker);
    ArgumentsClean(c, lead, j);
  }

  /** A string with the marker at a content path, healed inside the string: it is cut at the marker. */
  lemma HealedContent(c: Setting, s: string, path: Path, found: bool)
    requires Healed(c, "") && FaithfulText(s, c.marker) && Contains(s, c.marker) && path in c.paths.contents
    ensures var r := Clean(c, Str(s), path, found); r.Cleaned? && r.found && !HasMarker(r.value, c.marker)
  {
    assert "" + c.marker == c.marker;
    assert Led(Dump(Str(s)), "", c.marker);
    ArgumentsClean(c, "", Str(s));
    NothingBefore(s, c.marker);
  }

  lemma NothingBefore(s: string, p: string)
    requires p != [] && Contains(s, p)
    ensures !Contains(s[..Find(s, p, 0).value], p)
  {
    var at := Find(s, p, 0).value;
    if Contains(s[..at], p) {
      var i := Find(s[..at], p, 0).value;
      assert s[i..i + |p|] == s[..at][i..i + |p|];
      assert Occurs(s, p, i);
    }
  }

  /**
   Cleaning a part of a healed value: what it returns has the marker in no key, no string and no
   dumped arguments, and the flag is set exactly if the part had the marker.
   */
  lemma {:induction false} CleanRemoves(c: Setting, lead: string, a: string, j: Json, b: string, path: Path, found: bool)
    requires Healed(c, lead) && Faithful(j, c.marker) && Led(a + Dump(j) + b, lead, c.marker)
    requires j.Str? ==> !Contains(j.s, c.marker)
    ensures var r := Clean(c, j, path, found);
            r.Cleaned? ==> !HasMarker(r.value, c.marker) && (r.found <==> found || HasMarker(j, c.marker))
    decreases j, 1
  {
    match j
    case Str(s) => PlainString(c, lead, s);
    case Arr(_) =>
      LedPart(a, Dump(j), b, lead, c.marker);
      ArgumentsClean(c, lead, j);
      InsideRemoves(c, lead, a, j, b, path, found);
    case Obj(_) =>
      LedPart(a, Dump(j), b, lead, c.marker);
      ArgumentsClean(c, lead, j);
      InsideRemoves(c, lead, a, j, b, path, found);
    case _ => PlainScalar(c, lead, j);
  }

  lemma {:induction false} InsideRemoves(c: Setting, lead: string, a: string, j: Json, b: string, path: Path, found: bool)
    requires Healed(c, lead) && Faithful(j, c.marker) && Led(a + Dump(j) + b, lead, c.marker) && (j.Arr? || j.Obj?)
    ensures path !in c.paths.args ==>
              var r := Clean(c, j, path, found);
              r.Cleaned? ==> !HasMarker(r.value, c.marker) && (r.found <==> found || HasMarker(j, c.marker))
    decreases j, 0
  {
    hide Contains, FaithfulText, Healed, Led;
    match j
    case Arr(items) =>
      assert a + Dump(j) + b == (a + "[") + DumpItems(items) + ("]" + b);
      ItemsRemove(c, lead, a + "[", items, "]" + b, path, found);
    case Obj(members) =>
      assert a + Dump(j) + b == (a + "{") + DumpMembers(members) + ("}" + b);
      MembersRemove(c, lead, a + "{", members, "}" + b, path, found);
  }

  lemma {:induction false} ItemsRemove(c: Setting, lead: string, a: string, items: seq<Json>, b: string, path: Path, found: bool)
    requires Healed(c, lead) && forall i :: 0 <= i < |items| ==> Faithful(items[i], c.marker)
    requires Led(a + DumpItems(items) + b, lead, c.marker)
    ensures var r := CleanItems(c, items, path, found);
            r.CleanedItems? ==> !ItemsHave(r.items, c.marker) && (r.found <==> found || ItemsHave(items, c.marker))
    decreases items, 1
  {
    hide Contains, Dump, EscapeAll, FaithfulText, Healed, Led;
    if items != [] && !(items[0].Str? && Contains(items[0].s, c.marker)) {
      var rest := MoreItems(items[1..]);
      assert a + DumpItems(items) + b == a + Dump(items[0]) + (rest + b);
      CleanRemoves(c, lead, a, items[0], rest + b, path, found);
      var r := Clean(c, items[0], path, found);
      if r.Cleaned? {
        if |items| > 1 {
          var before := a + Dump(items[0]) + ",";
          assert rest == "," + DumpItems(items[1..]);
          assert a + DumpItems(items) + b == before + DumpItems(items[1..]) + b;
          ItemsRemove(c, lead, before, items[1..], b, r.path, r.found);
        } else {
          assert CleanItems(c, items[1..], r.path, r.found) == CleanedItems([], r.path, r.found);
        }
        ConsItems(c, items, path, found);
      }
    }
  }

  lemma ConsItems(c: Setting, items: seq<Json>, path: Path, found: bool)
    requires items != [] && !(items[0].Str? && Contains(items[0].s, c.marker))
    requires Clean(c, items[0], path, found).Cleaned?
    ensures var r := Clean(c, items[0], path, found);
            var more, all := CleanItems(c, items[1..], r.path, r.found), CleanItems(c, items, path, found);
            && (all.CleanedItems? <==> more.CleanedItems?)
            && (all.CleanedItems? ==>
                  && all == CleanedItems([r.value] + more.items, more.path, more.found)
                  && (ItemsHave(all.items, c.marker) <==> HasMarker(r.value, c.marker) || ItemsHave(more.items, c.marker)))
  {
    var r := Clean(c, items[0], path, found);
    var more := CleanItems(c, items[1..], r.path, r.found);
    if more.CleanedItems? {
      assert ([r.value] + more.items)[1..] == more.items;
    }
  }

  lemma {:induction false} MembersRemove(c: Setting, lead: string, a: string, ms: seq<Member>, b: string, path: Path, found: bool)
    requires Healed(c, lead)
    requires forall i :: 0 <= i < |ms| ==> FaithfulText(ms[i].key, c.marker) && Faithful(ms[i].value, c.marker)
    requires Led(a + DumpMembers(ms) + b, lead, c.marker)
    ensures var r := CleanMembers(c, ms, path, found);
            r.CleanedMembers? ==> !MembersHave(r.members, c.marker) && (r.found <==> found || MembersHave(ms, c.marker))
    decreases ms, 1
  {
    if ms != [] && !Contains(ms[0].key, c.marker) {
      var m, inner := ms[0], path + [ms[0].key];
      if m.value.Str? && Contains(m.value.s, c.marker) {
        if c.healed == c.dumpMarker {
          assert lead == "" by {
            assert |lead + c.marker| == |c.marker|;
          }
          if inner in c.paths.contents {
            HealedContent(c, m.value.s, inner, true);
            OneMember(m.key, Clean(c, m.value, inner, true).value, c.marker);
          }
        }
      } else {
        MembersStep(c, lead, a, ms, b, path, found);
      }
    }
  }

  lemma OneMember(key: string, v: Json, marker: string)
    ensures MembersHave([Member(key, v)], marker) <==> Contains(key, marker) || HasMarker(v, marker)
  {
    assert [Member(key, v)][1..] == [];
  }

  /** The value of a member that is passed by. */
  function Passed(c: Setting, m: Member, path: Path, found: bool): Cleaned {
    if m.value.Str? then Cleaned(m.value, path + [m.key], found) else Clean(c, m.value, path + [m.key], found)
  }

  lemma {:induction false} MembersStep(c: Setting, lead: string, a: string, ms: seq<Member>, b: string, path: Path, found: bool)
    requires Healed(c, lead)
    requires forall i :: 0 <= i < |ms| ==> FaithfulText(ms[i].key, c.marker) && Faithful(ms[i].value, c.marker)
    requires Led(a + DumpMembers(ms) + b, lead, c.marker)
    requires ms != [] && !Contains(ms[0].key, c.marker) && !(ms[0].value.Str? && Contains(ms[0].value.s, c.marker))
    ensures var r := CleanMembers(c, ms, path, found);
            r.CleanedMembers? ==> !MembersHave(r.members, c.marker) && (r.found <==> found || MembersHave(ms, c.marker))
    decreases ms, 0
  {
    hide Contains, Dump, DumpString, FaithfulText, Healed, Led;
    var m := ms[0];
    var rest := MoreMembers(ms[1..]);
    var before := a + DumpString(m.key) + ":";
    assert a + DumpMembers(ms) + b == before + Dump(m.value) + (rest + b);
    CleanRemoves(c, lead, before, m.value, rest + b, path + [m.key], found);
    var r := Passed(c, m, path, found);
    if r.Cleaned? {
      var next := r.path[..|r.path| - 1];
      if |ms| > 1 {
        assert rest == "," + DumpMembers(ms[1..]);
        assert a + DumpMembers(ms) + b == (before + Dump(m.value) + ",") + DumpMembers(ms[1..]) + b;
        MembersRemove(c, lead, before + Dump(m.value) + ",", ms[1..], b, next, r.found);
      } else {
        assert CleanMembers(c, ms[1..], next, r.found) == CleanedMembers([], next, r.found);
      }
      ConsMembers(c, ms, path, found);
    }
  }

  lemma ConsMembers(c: Setting, ms: seq<Member>, path: Path, found: bool)
    requires ms != [] && !Contains(ms[0].key, c.marker) && !(ms[0].value.Str? && Contains(ms[0].value.s, c.marker))
    requires Passed(c, ms[0], path, found).Cleaned?
    ensures var r := Passed(c, ms[0], path, found);
            r.path != []
    ensures var r := Passed(c, ms[0], path, found);
            var more, all := CleanMembers(c, ms[1..], r.path[..|r.path| - 1], r.found), CleanMembers(c, ms, path, found);
            && (all.CleanedMembers? <==> more.CleanedMembers?)
            && (all.CleanedMembers? ==>
                  && all == CleanedMembers([Member(ms[0].key, r.value)] + more.members, more.path, more.found)
                  && (MembersHave(all.members, c.marker) <==> HasMarker(r.value, c.marker) || MembersHave(more.members, c.marker)))
  {
    var r := Passed(c, ms[0], path, found);
    var more := CleanMembers(c, ms[1..], r.path[..|r.path| - 1], r.found);
    if more.CleanedMembers? {
      assert ([Member(ms[0].key, r.value)] + more.members)[1..] == more.members;
    }
  }

  /** A healed object or array comes out without the marker, and reported as partial. */
  lemma HealedIsCleaned(c: Setting, lead: string, j: Json)
    requires Healed(c, lead) && (j.Obj? || j.Arr?) && Faithful(j, c.marker)
    requires Led(Dump(j), lead, c.marker) && HasMarker(j, c.marker)
    ensures var r := Clean(c, j, [], false); r.Cleaned? ==> !HasMarker(r.value, c.marker) && r.found
  {
    assert "" + Dump(j) + "" == Dump(j);
    CleanRemoves(c, lead, "", j, "", [], false);
  }

  // ----- what cleaning leaves alone

  /** The value with what is at the paths of arguments dumped; strings that are members stay as they are. */
  function DumpedAt(p: Paths, j: Json, path: Path): Json
    decreases j, 0
  {
    if path in p.args then Str(Dump(j))
    else match j
      case Obj(members) => Obj(MembersDumpedAt(p, members, path))
      case Arr(items) => Arr(ItemsDumpedAt(p, items, path))
      case _ => j
  }

  function ItemsDumpedAt(p: Paths, items: seq<Json>, path: Path): seq<Json>
    decreases items, 1
  {
    if items == [] then [] else [DumpedAt(p, items[0], path)] + ItemsDumpedAt(p, items[1..], path)
  }

  function MembersDumpedAt(p: Paths, ms: seq<Member>, path: Path): seq<Member>
    decreases ms, 1
  {
    if ms == [] then []
    else
      var v := ms[0].value;
      [Member(ms[0].key, if v.Str? then v else DumpedAt(p, v, path + [ms[0].key]))] + MembersDumpedAt(p, ms[1..], path)
  }

  /** No dump is a lone quote. */
  lemma NoLoneQuote(j: Json, marker: string)
    requires Faithful(j, marker)
    ensures Dump(j) != "\""
  {
    match j
    case Null => assert |"null"| == 4;
    case Bool(b) => assert |"true"| == 4 && |"false"| == 5;
    case Num(text) => assert text[0] != '"';
    case Str(s) => assert |DumpString(s)| >= 2;
    case Arr(items) => assert Dump(j)[0] == '[';
    case Obj(members) => assert Dump(j)[0] == '{';
  }

  /** What cleaning leaves alone: a value without the marker, healed elsewhere or parsed whole. */
  ghost predicate Unmarked(c: Setting, lead: string, j: Json) {
    c.marker != "" && !HasMarker(j, c.marker) && (c.healed == "" || (Healed(c, lead) && Faithful(j, c.marker)))
  }

  ghost predicate ItemsUnmarked(c: Setting, lead: string, items: seq<Json>) {
    && c.marker != "" && !ItemsHave(items, c.marker)
    && (c.healed == "" || (Healed(c, lead) && forall i :: 0 <= i < |items| ==> Faithful(items[i], c.marker)))
  }

  ghost predicate MembersUnmarked(c: Setting, lead: string, ms: seq<Member>) {
    && c.marker != "" && !MembersHave(ms, c.marker)
    && (c.healed == "" || (Healed(c, lead) && forall i :: 0 <= i < |ms| ==> Faithful(ms[i].value, c.marker)))
  }

  /** The cleaning meets something that is no string at a content path; strings that are members it does not enter. */
  predicate Misplaced(p: Paths, j: Json, path: Path)
    decreases j, 0
  {
    && path !in p.args
    && if path in p.contents then !j.Str?
       else match j
         case Obj(members) => MembersMisplaced(p, members, path)
         case Arr(items) => ItemsMisplaced(p, items, path)
         case _ => false
  }

  predicate ItemsMisplaced(p: Paths, items: seq<Json>, path: Path)
    decreases items, 1
  {
    items != [] && (Misplaced(p, items[0], path) || ItemsMisplaced(p, items[1..], path))
  }

  predicate MembersMisplaced(p: Paths, ms: seq<Member>, path: Path)
    decreases ms, 1
  {
    && ms != []
    && ((!ms[0].value.Str? && Misplaced(p, ms[0].value, path + [ms[0].key])) || MembersMisplaced(p, ms[1..], path))
  }

  /** The value itself is a string at a content path, and was parsed whole. */
  predicate WholeText(c: Setting, j: Json, path: Path) {
    c.healed == "" && j.Str? && path !in c.paths.args && path in c.paths.contents
  }

  lemma ArgumentsKept(c: Setting, lead: string, j: Json)
    requires Unmarked(c, lead, j)
    ensures DumpedArguments(c, j) == (Dump(j), false)
  {
    if c.healed != "" {
      DumpShows(j, c.marker);
      NoLoneQuote(j, c.marker);
      assert Led(Dump(j), lead, c.marker);
      CutText(Dump(j), lead, c.marker);
    }
  }

  /**
   Cleaning changes a value without the marker only by dumping what is at the paths of arguments,
   and keeps path and flag. It throws exactly where something else than a string stands at a content
   path. The exception is a string at a content path that is itself the value to clean and was
   parsed whole: the empty marker is found at once, so the text is lost and reported as partial.
   */
  lemma {:induction false} CleanKeeps(c: Setting, lead: string, j: Json, path: Path, found: bool)
    requires Unmarked(c, lead, j)
    ensures Clean(c, j, path, found)
            == if Misplaced(c.paths, j, path) then Thrown
               else if WholeText(c, j, path) then Cleaned(Str(""), path, true)
               else Cleaned(DumpedAt(c.paths, j, path), path, found)
    decreases j, 1
  {
    hide Dump, Faithful;
    ArgumentsKept(c, lead, j);
    if path !in c.paths.args {
      match j
      case Str(s) => TextKept(c, s);
      case Arr(items) =>
        if path !in c.paths.contents {
          ItemsParts(c, lead, items);
          ItemsKeep(c, lead, items, [], path, found);
          assert items + [] == items;
          assert ItemsDumpedAt(c.paths, items, path) + [] == ItemsDumpedAt(c.paths, items, path);
        }
      case Obj(members) =>
        if path !in c.paths.contents {
          MembersParts(c, lead, members);
          MembersKeep(c, lead, members, [], path, found);
          assert members + [] == members;
          assert MembersDumpedAt(c.paths, members, path) + [] == MembersDumpedAt(c.paths, members, path);
        }
      case _ =>
    }
  }

  lemma TextKept(c: Setting, s: string)
    requires c.healed == "" || (c.healed == c.marker && !Contains(s, c.marker))
    ensures Content(c, s) == if c.healed == "" then ("", true) else (s, false)
  {
    if c.healed == "" {
      assert Occurs(s, "", 0);
    }
  }

  lemma ItemsParts(c: Setting, lead: string, items: seq<Json>)
    requires Unmarked(c, lead, Arr(items))
    ensures ItemsUnmarked(c, lead, items)
  {
  }

  lemma MembersParts(c: Setting, lead: string, ms: seq<Member>)
    requires Unmarked(c, lead, Obj(ms))
    ensures MembersUnmarked(c, lead, ms)
  {
  }

  /**
   The items in front of the marker are kept, dumped where they are arguments, and the loop goes on
   behind them as if it began there; unless one of them is misplaced.
   */
  lemma {:induction false} ItemsKeep(c: Setting, lead: string, front: seq<Json>, back: seq<Json>, path: Path, found: bool)
    requires ItemsUnmarked(c, lead, front) && path !in c.paths.args && path !in c.paths.contents
    ensures CleanItems(c, front + back, path, found)
            == if ItemsMisplaced(c.paths, front, path) then ThrownItems
               else PrependItems(ItemsDumpedAt(c.paths, front, path), CleanItems(c, back, path, found))
    decreases front, 1
  {
    hide Contains, DumpedAt, Faithful, Healed, Misplaced;
    if front == [] {
      assert front + back == back;
      NoItemPrepended(CleanItems(c, back, path, found));
    } else {
      assert (front + back)[1..] == front[1..] + back;
      CleanKeeps(c, lead, front[0], path, found);
      ItemsKeep(c, lead, front[1..], back, path, found);
      PrependBothItems([DumpedAt(c.paths, front[0], path)], ItemsDumpedAt(c.paths, front[1..], path), CleanItems(c, back, path, found));
    }
  }

  function Prepend(ms: seq<Member>, rest: CleanedMembers): CleanedMembers {
    match rest
    case ThrownMembers => ThrownMembers
    case CleanedMembers(more, p, f) => CleanedMembers(ms + more, p, f)
  }

  /**
   The members in front of the marker are kept, dumped where they are arguments, and the loop goes
   on behind them as if it began there; unless one of them is misplaced.
   */
  lemma {:induction false} MembersKeep(c: Setting, lead: string, front: seq<Member>, back: seq<Member>, path: Path, found: bool)
    requires MembersUnmarked(c, lead, front)
    ensures CleanMembers(c, front + back, path, found)
            == if MembersMisplaced(c.paths, front, path) then ThrownMembers
               else Prepend(MembersDumpedAt(c.paths, front, path), CleanMembers(c, back, path, found))
    decreases front, 1
  {
    hide Clean, Contains, DumpedAt, Faithful, Healed;
    if front == [] {
      assert front + back == back;
      NothingPrepended(CleanMembers(c, back, path, found));
    } else {
      assert (front + back)[1..] == front[1..] + back;
      MemberKept(c, lead, front[0], path, found);
      MembersKeep(c, lead, front[1..], back, path, found);
      var first := MembersDumpedAt(c.paths, front, path)[..1];
      PrependBoth(first, MembersDumpedAt(c.paths, front[1..], path), CleanMembers(c, back, path, found));
    }
  }

  lemma {:induction false} MemberKept(c: Setting, lead: string, m: Member, path: Path, found: bool)
    requires Unmarked(c, lead, m.value)
    ensures var inner := path + [m.key];
            Passed(c, m, path, found)
            == if m.value.Str? then Cleaned(m.value, inner, found)
               else if Misplaced(c.paths, m.value, inner) then Thrown
               else Cleaned(DumpedAt(c.paths, m.value, inner), inner, found)
    ensures (path + [m.key])[..|path|] == path
    decreases m, 0
  {
    hide Clean, DumpedAt, Faithful, Healed, Misplaced;
    if !m.value.Str? {
      CleanKeeps(c, lead, m.value, path + [m.key], found);
    }
  }

  lemma NothingPrepended(rest: CleanedMembers)
    ensures Prepend([], rest) == rest
  {
    if rest.CleanedMembers? {
      assert [] + rest.members == rest.members;
    }
  }

  lemma PrependBoth(a: seq<Member>, b: seq<Member>, rest: CleanedMembers)
    ensures Prepend(a, Prepend(b, rest)) == Prepend(a + b, rest)
  {
    if rest.CleanedMembers? {
      assert a + (b + rest.members) == a + b + rest.members;
    }
  }

  function PrependItems(items: seq<Json>, rest: CleanedItems): CleanedItems {
    match rest
    case ThrownItems => ThrownItems
    case CleanedItems(more, p, f) => CleanedItems(items + more, p, f)
  }

  lemma NoItemPrepended(rest: CleanedItems)
    ensures PrependItems([], rest) == rest
  {
    if rest.CleanedItems? {
      assert [] + rest.items == rest.items;
    }
  }

  lemma PrependBothItems(a: seq<Json>, b: seq<Json>, rest: CleanedItems)
    ensures PrependItems(a, PrependItems(b, rest)) == PrependItems(a + b, rest)
  {
    if rest.CleanedItems? {
      assert a + (b + rest.items) == a + b + rest.items;
    }
  }

  /** Members that are strings keep their text at content paths, whether or not the value was healed. */
  lemma WholeMember(c: Setting, key: string, s: string)
    requires c.healed == "" && c.marker != "" && !Contains(key, c.marker) && !Contains(s, c.marker)
    requires [] !in c.paths.args && [] !in c.paths.contents
    ensures Clean(c, Obj([Member(key, Str(s))]), [], false) == Cleaned(Obj([Member(key, Str(s))]), [], false)
  {
    var ms := [Member(key, Str(s))];
    OneMember(key, Str(s), c.marker);
    hide Contains, Dump;
    assert ms[1..] == [];
    assert MembersDumpedAt(c.paths, ms[1..], []) == [] && !MembersMisplaced(c.paths, ms[1..], []);
    assert MembersDumpedAt(c.paths, ms, []) == ms;
    CleanKeeps(c, "", Obj([Member(key, Str(s))]), [], false);
  }

  // ----- the closure of the program

  class Cleaner {
    const setting: Setting
    var path: Path
    var found: bool

    constructor (setting: Setting)
      ensures this.setting == setting && path == [] && !found
    {
      this.setting := setting;
      path := [];
      found := false;
    }

    /** remove_unsupported_healings_and_dump_args; `ok` is false where it throws. */
    method CleanValue(j: Json) returns (ok: bool, r: Json)
      modifies this`path, this`found
      ensures var cleaned := Clean(setting, j, old(path), old(found));
              ok == cleaned.Cleaned? && (ok ==> Cleaned(r, path, found) == cleaned)
      decreases j, 1
    {
      if path in setting.paths.args {
        var arguments := Dump(j);
        if setting.isPartial && setting.healed != "" {
          var at := Find(arguments, setting.dumpMarker, 0);
          if at.Some? {
            arguments := arguments[..at.value];
            found := true;
          }
          if arguments == "\"" {
            arguments := "";
          }
        }
        return true, Str(arguments);
      }
      if path in setting.paths.contents {
        if !j.Str? {
          return false, j;
        }
        var at := Find(j.s, setting.healed, 0);
        if at.None? {
          return true, j;
        }
        found := true;
        return true, Str(j.s[..at.value]);
      }
      match j {
        case Obj(members) => ok, r := CleanObject(members);
        case Arr(items) => ok, r := CleanArray(items);
        case _ => ok, r := true, j;
      }
    }

    method CleanObject(members: seq<Member>) returns (ok: bool, r: Json)
      modifies this`path, this`found
      ensures var cleaned := CleanMembers(setting, members, old(path), old(found));
              && ok == cleaned.CleanedMembers?
              && (ok ==> r == Obj(cleaned.members) && path == cleaned.path && found == cleaned.found)
      decreases members, 0
    {
      hide Clean, Contains;
      ghost var whole := CleanMembers(setting, members, path, found);
      NothingPrepended(whole);
      var obj: seq<Member> := [];
      var i := 0;
      assert members[0..] == members;
      while i < |members|
        invariant i <= |members|
        invariant whole == Prepend(obj, CleanMembers(setting, members[i..], path, found))
      {
        var m := members[i];
        assert members[i..][1..] == members[i + 1..];
        if Contains(m.key, setting.marker) {
          found := true;
          break;
        }
        path := path + [m.key];
        var value := m.value;
        if m.value.Str? {
          if Contains(m.value.s, setting.marker) {
            found := true;
            if path in setting.paths.contents && setting.healed == setting.dumpMarker {
              ok, value := CleanValue(m.value);
              if !ok {
                return false, Null;
              }
              obj := obj + [Member(m.key, value)];
            }
            break;
          }
        } else {
          ok, value := CleanValue(m.value);
          if !ok {
            return false, Null;
          }
        }
        path := path[..|path| - 1];
        PrependBoth(obj, [Member(m.key, value)], CleanMembers(setting, members[i + 1..], path, found));
        obj := obj + [Member(m.key, value)];
        i := i + 1;
      }
      return true, Obj(obj);
    }

    method CleanArray(items: seq<Json>) returns (ok: bool, r: Json)
      modifies this`path, this`found
      ensures var cleaned := CleanItems(setting, items, old(path), old(found));
              && ok == cleaned.CleanedItems?
              && (ok ==> r == Arr(cleaned.items) && path == cleaned.path && found == cleaned.found)
      decreases items, 0
    {
      hide Clean, Contains;
      ghost var whole := CleanItems(setting, items, path, found);
      NoItemPrepended(whole);
      var arr: seq<Json> := [];
      var i := 0;
      assert items[0..] == items;
      while i < |items|
        invariant i <= |items|
        invariant whole == PrependItems(arr, CleanItems(setting, items[i..], path, found))
      {
        assert items[i..][1..] == items[i + 1..];
        if items[i].Str? && Contains(items[i].s, setting.marker) {
          found := true;
          break;
        }
        var v;
        ok, v := CleanValue(items[i]);
        if !ok {
          return false, Null;
        }
        PrependBothItems(arr, [v], CleanItems(setting, items[i + 1..], path, found));
        arr := arr + [v];
        i := i + 1;
      }
      return true, Arr(arr);
    }
  }

  /** The outcome for a caller: the value and whether it is partial; None where the program throws. */
  method ConsumeJsonWithDumpedArgs(setting: Setting, j: Json) returns (r: Option<(Json, bool)>)
    ensures setting.healed == "" && setting.paths.args == [] ==> r == Some((j, false))
    ensures setting.healed == "" && [] in setting.paths.args ==> r == Some((Str(Dump(j)), false))
    ensures setting.healed != "" || (setting.paths.args != [] && [] !in setting.paths.args) ==>
              match Clean(setting, j, [], false)
              case Thrown => r == None
              case Cleaned(v, _, found) => r == Some((v, found))
  {
    if setting.healed == "" {
      if setting.paths.args == [] {
        return Some((j, false));
      }
      if [] in setting.paths.args {
        return Some((Str(Dump(j)), false));
      }
    }
    var cleaner := new Cleaner(setting);
    var ok, v := cleaner.CleanValue(j);
    return if ok then Some((v, cleaner.found)) else None;
  }
}

/**
 The value of a healed text. What the cleaning of JsonCleaning relies on is derived here from the
 text alone: the marker is in the value, once, and its lead stands before it in the dump.
 */
module JsonHealedValues {
  import opened Base
  import opened JsonMachine
  import opened JsonShape
  import opened JsonCompletion
  import opened JsonErrorLocator
  import opened JsonHealing
  import opened JsonParse
  import opened JsonDump
  import opened JsonPartialResults
  import opened JsonCleaning
  import opened JsonValues

  // ----- the strings and numbers of a value

  function StringsIn(j: Json): set<string>
    decreases j, 0
  {
    match j
    case Str(s) => {s}
    case Arr(items) => ItemsStrings(items)
    case Obj(members) => MembersStrings(members)
    case _ => {}
  }

  function ItemsStrings(items: seq<Json>): set<string>
    decreases items, 1
  {
    if items == [] then {} else StringsIn(items[0]) + ItemsStrings(items[1..])
  }

  function MembersStrings(ms: seq<Member>): set<string>
    decreases ms, 1
  {
    if ms == [] then {} else {ms[0].key} + StringsIn(ms[0].value) + MembersStrings(ms[1..])
  }

  function NumbersIn(j: Json): set<string>
    decreases j, 0
  {
    match j
    case Num(text) => {text}
    case Arr(items) => ItemsNumbers(items)
    case Obj(members) => MembersNumbers(members)
    case _ => {}
  }

  function ItemsNumbers(items: seq<Json>): set<string>
    decreases items, 1
  {
    if items == [] then {} else NumbersIn(items[0]) + ItemsNumbers(items[1..])
  }

  function MembersNumbers(ms: seq<Member>): set<string>
    decreases ms, 1
  {
    if ms == [] then {} else NumbersIn(ms[0].value) + MembersNumbers(ms[1..])
  }

  /** Numbers are written as numbers, and none shows the marker. */
  predicate NumbersClear(j: Json, marker: string) {
    forall n :: n in NumbersIn(j) ==> NumberText(n) && !Contains(n, marker)
  }

  lemma {:induction false} ItemsSnoc(items: seq<Json>, v: Json)
    ensures ItemsStrings(items + [v]) == ItemsStrings(items) + StringsIn(v)
    ensures ItemsNumbers(items + [v]) == ItemsNumbers(items) + NumbersIn(v)
    decreases |items|
  {
    hide StringsIn, NumbersIn;
    if items == [] {
      assert [] + [v] == [v] && [v][1..] == [];
    } else {
      assert (items + [v])[1..] == items[1..] + [v];
      ItemsSnoc(items[1..], v);
    }
  }

  lemma {:induction false} MembersSnoc(ms: seq<Member>, m: Member)
    ensures MembersStrings(ms + [m]) == MembersStrings(ms) + {m.key} + StringsIn(m.value)
    ensures MembersNumbers(ms + [m]) == MembersNumbers(ms) + NumbersIn(m.value)
    decreases |ms|
  {
    hide StringsIn, NumbersIn;
    if ms == [] {
      assert [] + [m] == [m] && [m][1..] == [];
    } else {
      assert (ms + [m])[1..] == ms[1..] + [m];
      MembersSnoc(ms[1..], m);
    }
  }

  /** Some string of the value contains the marker. */
  predicate Marked(strings: set<string>, marker: string) {
    exists s :: s in strings && Contains(s, marker)
  }

  lemma {:induction false} MarkerInStrings(j: Json, marker: string)
    ensures HasMarker(j, marker) <==> Marked(StringsIn(j), marker)
    decreases j, 0
  {
    hide Contains;
    match j
    case Arr(items) => MarkerInItems(items, marker);
    case Obj(members) => MarkerInMembers(members, marker);
    case Str(s) => assert s in {s};
    case _ =>
  }

  lemma {:induction false} MarkerInItems(items: seq<Json>, marker: string)
    ensures ItemsHave(items, marker) <==> Marked(ItemsStrings(items), marker)
    decreases items, 1
  {
    hide Contains, HasMarker, StringsIn;
    if items != [] {
      MarkerInStrings(items[0], marker);
      MarkerInItems(items[1..], marker);
    }
  }

  lemma {:induction false} MarkerInMembers(ms: seq<Member>, marker: string)
    ensures MembersHave(ms, marker) <==> Marked(MembersStrings(ms), marker)
    decreases ms, 1
  {
    hide Contains, HasMarker, StringsIn;
    if ms != [] {
      MarkerInStrings(ms[0].value, marker);
      MarkerInMembers(ms[1..], marker);
      assert ms[0].key in MembersStrings(ms);
    }
  }

  predicate TextsFaithful(strings: set<string>, marker: string) {
    forall s :: s in strings ==> FaithfulText(s, marker)
  }

  predicate TextsClear(numbers: set<string>, marker: string) {
    forall n :: n in numbers ==> NumberText(n) && !Contains(n, marker)
  }

  /** A value is faithful when all its strings are and its numbers do not show the marker. */
  lemma {:induction false} FaithfulStrings(j: Json, marker: string)
    requires TextsFaithful(StringsIn(j), marker) && TextsClear(NumbersIn(j), marker)
    ensures Faithful(j, marker)
    decreases j, 0
  {
    hide FaithfulText, NumberText, Contains;
    match j
    case Arr(items) => FaithfulItems(items, marker);
    case Obj(members) => FaithfulMembers(members, marker);
    case _ =>
  }

  lemma {:induction false} FaithfulItems(items: seq<Json>, marker: string)
    requires TextsFaithful(ItemsStrings(items), marker) && TextsClear(ItemsNumbers(items), marker)
    ensures forall i :: 0 <= i < |items| ==> Faithful(items[i], marker)
    decreases items, 1
  {
    hide FaithfulText, NumberText, Contains, Faithful, StringsIn, NumbersIn;
    if items != [] {
      FaithfulStrings(items[0], marker);
      FaithfulItems(items[1..], marker);
      assert forall i :: 0 < i < |items| ==> items[i] == items[1..][i - 1];
    }
  }

  lemma {:induction false} FaithfulMembers(ms: seq<Member>, marker: string)
    requires TextsFaithful(MembersStrings(ms), marker) && TextsClear(MembersNumbers(ms), marker)
    ensures forall i :: 0 <= i < |ms| ==> FaithfulText(ms[i].key, marker) && Faithful(ms[i].value, marker)
    decreases ms, 1
  {
    hide FaithfulText, NumberText, Contains, Faithful, StringsIn, NumbersIn;
    if ms != [] {
      FaithfulStrings(ms[0].value, marker);
      FaithfulMembers(ms[1..], marker);
      assert ms[0].key in MembersStrings(ms);
      assert forall i :: 0 < i < |ms| ==> ms[i] == ms[1..][i - 1];
    }
  }

  // ----- containers under way

  function FrameStrings(f: Frame): set<string> {
    match f
    case ArrayFrame(items) => ItemsStrings(items)
    case ObjectFrame(members, key) => MembersStrings(members) + {key}
  }

  function FrameNumbers(f: Frame): set<string> {
    match f
    case ArrayFrame(items) => ItemsNumbers(items)
    case ObjectFrame(members, _) => MembersNumbers(members)
  }

  function FramesStrings(fs: seq<Frame>): set<string> {
    if fs == [] then {} else FramesStrings(fs[..|fs| - 1]) + FrameStrings(fs[|fs| - 1])
  }

  function FramesNumbers(fs: seq<Frame>): set<string> {
    if fs == [] then {} else FramesNumbers(fs[..|fs| - 1]) + FrameNumbers(fs[|fs| - 1])
  }

  function Kind(f: Frame): Container {
    if f.ArrayFrame? then InArray else InObject
  }

  function Kinds(fs: seq<Frame>): (r: seq<Container>)
    ensures |r| == |fs|
  {
    if fs == [] then [] else Kinds(fs[..|fs| - 1]) + [Kind(fs[|fs| - 1])]
  }

  /** The value, when a value is put into the innermost container and all are closed. */
  function CloseAll(fs: seq<Frame>, v: Json): Json
    decreases |fs|
  {
    if fs == [] then v else CloseAll(fs[..|fs| - 1], Closed(Added(fs[|fs| - 1], v)))
  }

  lemma ClosedParts(f: Frame, v: Json)
    ensures StringsIn(Closed(Added(f, v))) == FrameStrings(f) + StringsIn(v)
    ensures NumbersIn(Closed(Added(f, v))) == FrameNumbers(f) + NumbersIn(v)
  {
    match f
    case ArrayFrame(items) => ItemsSnoc(items, v);
    case ObjectFrame(members, key) => MembersSnoc(members, Member(key, v));
  }

  lemma {:induction false} ClosedStrings(fs: seq<Frame>, v: Json)
    ensures StringsIn(CloseAll(fs, v)) == FramesStrings(fs) + StringsIn(v)
    ensures NumbersIn(CloseAll(fs, v)) == FramesNumbers(fs) + NumbersIn(v)
    decreases |fs|
  {
    hide StringsIn, NumbersIn, FrameStrings, FrameNumbers;
    if fs != [] {
      ClosedParts(fs[|fs| - 1], v);
      ClosedStrings(fs[..|fs| - 1], Closed(Added(fs[|fs| - 1], v)));
    }
  }

  lemma {:induction false} ClosedContainer(fs: seq<Frame>, v: Json)
    requires fs != []
    ensures CloseAll(fs, v).Obj? || CloseAll(fs, v).Arr?
    decreases |fs|
  {
    if |fs| > 1 {
      ClosedContainer(fs[..|fs| - 1], Closed(Added(fs[|fs| - 1], v)));
    } else {
      assert fs[..0] == [];
    }
  }

  // ----- the dump of what is under way

  /** The dump of a container up to the place of its next item or member. */
  function HeadText(f: Frame): string {
    match f
    case ArrayFrame(items) => "[" + DumpItems(items) + (if items == [] then "" else ",")
    case ObjectFrame(members, _) => "{" + DumpMembers(members) + (if members == [] then "" else ",")
  }

  /** And up to the place of its next value. */
  function FrameText(f: Frame): string {
    match f
    case ArrayFrame(_) => HeadText(f)
    case ObjectFrame(_, key) => HeadText(f) + (DumpString(key) + ":")
  }

  function OpenText(fs: seq<Frame>): string {
    if fs == [] then "" else OpenText(fs[..|fs| - 1]) + FrameText(fs[|fs| - 1])
  }

  lemma {:induction false} MoreItemsSnoc(items: seq<Json>, v: Json)
    ensures MoreItems(items + [v]) == MoreItems(items) + ("," + Dump(v))
    decreases |items|
  {
    hide Dump;
    if items == [] {
      assert [] + [v] == [v] && [v][1..] == [];
      assert Dump(v) + MoreItems([]) == Dump(v) && MoreItems([]) + ("," + Dump(v)) == "," + Dump(v);
    } else {
      assert (items + [v])[1..] == items[1..] + [v];
      MoreItemsSnoc(items[1..], v);
      assert "," + (Dump(items[0]) + (MoreItems(items[1..]) + ("," + Dump(v))))
          == "," + (Dump(items[0]) + MoreItems(items[1..])) + ("," + Dump(v));
    }
  }

  lemma DumpItemsSnoc(items: seq<Json>, v: Json)
    ensures "[" + DumpItems(items + [v]) == HeadText(ArrayFrame(items)) + Dump(v)
  {
    hide Dump;
    if items == [] {
      assert [] + [v] == [v] && [v][1..] == [];
      assert Dump(v) + MoreItems([]) == Dump(v);
      assert "[" + DumpItems([]) + "" == "[";
    } else {
      assert (items + [v])[1..] == items[1..] + [v];
      MoreItemsSnoc(items[1..], v);
      assert "[" + (Dump(items[0]) + (MoreItems(items[1..]) + ("," + Dump(v))))
          == "[" + (Dump(items[0]) + MoreItems(items[1..])) + "," + Dump(v);
    }
  }

  lemma {:induction false} MoreMembersSnoc(ms: seq<Member>, m: Member)
    ensures MoreMembers(ms + [m]) == MoreMembers(ms) + ("," + DumpMember(m))
    decreases |ms|
  {
    hide DumpMember;
    if ms == [] {
      assert [] + [m] == [m] && [m][1..] == [];
      assert DumpMember(m) + MoreMembers([]) == DumpMember(m);
      assert MoreMembers([]) + ("," + DumpMember(m)) == "," + DumpMember(m);
    } else {
      assert (ms + [m])[1..] == ms[1..] + [m];
      MoreMembersSnoc(ms[1..], m);
      assert "," + (DumpMember(ms[0]) + (MoreMembers(ms[1..]) + ("," + DumpMember(m))))
          == "," + (DumpMember(ms[0]) + MoreMembers(ms[1..])) + ("," + DumpMember(m));
    }
  }

  lemma DumpMembersSnoc(ms: seq<Member>, m: Member)
    ensures "{" + DumpMembers(ms + [m]) == HeadText(ObjectFrame(ms, "")) + DumpMember(m)
  {
    hide DumpMember;
    if ms == [] {
      assert [] + [m] == [m] && [m][1..] == [];
      assert DumpMember(m) + MoreMembers([]) == DumpMember(m);
      assert "{" + DumpMembers([]) + "" == "{";
    } else {
      assert (ms + [m])[1..] == ms[1..] + [m];
      MoreMembersSnoc(ms[1..], m);
      assert "{" + (DumpMember(ms[0]) + (MoreMembers(ms[1..]) + ("," + DumpMember(m))))
          == "{" + (DumpMember(ms[0]) + MoreMembers(ms[1..])) + "," + DumpMember(m);
    }
  }

  function Closer(f: Frame): string {
    if f.ArrayFrame? then "]" else "}"
  }

  lemma AddedDump(f: Frame, v: Json)
    ensures Dump(Closed(Added(f, v))) == FrameText(f) + Dump(v) + Closer(f)
  {
    hide DumpString, DumpItems, DumpMembers, HeadText;
    match f
    case ArrayFrame(items) => DumpItemsSnoc(items, v);
    case ObjectFrame(members, key) =>
      var m := Member(key, v);
      DumpMembersSnoc(members, m);
      SameHead(members, "", key);
      assert DumpMember(m) == DumpString(key) + ":" + Dump(v);
      var h := HeadText(f);
      assert h + (DumpString(key) + ":" + Dump(v)) == h + (DumpString(key) + ":") + Dump(v);
  }

  lemma SameHead(ms: seq<Member>, key: string, other: string)
    ensures HeadText(ObjectFrame(ms, key)) == HeadText(ObjectFrame(ms, other))
  {
  }

  lemma {:induction false} ClosedDump(fs: seq<Frame>, v: Json)
    ensures Dump(CloseAll(fs, v)) == OpenText(fs) + Dump(v) + Closing(Kinds(fs))
    decreases |fs|
  {
    hide Dump, FrameText;
    if fs == [] {
      assert OpenText(fs) + Dump(v) + Closing(Kinds(fs)) == Dump(v);
    } else {
      var front, f := fs[..|fs| - 1], fs[|fs| - 1];
      AddedDump(f, v);
      ClosedDump(front, Closed(Added(f, v)));
      ClosingSnoc(Kinds(front), Kind(f));
      assert OpenText(front) + (FrameText(f) + Dump(v) + Closer(f)) + Closing(Kinds(front))
          == OpenText(front) + FrameText(f) + Dump(v) + (Closer(f) + Closing(Kinds(front)));
    }
  }

  lemma ClosingSnoc(stack: seq<Container>, container: Container)
    ensures Closing(stack + [container]) == (if container.InObject? then "}" else "]") + Closing(stack)
  {
    assert Pop(stack + [container]) == stack;
  }

  // ----- reading the closing brackets

  lemma CloserReads(show: string -> string, front: seq<Frame>, f: Frame, v: Json, value: Json)
    ensures Next(show, Reader(State(After, Kinds(front) + [Kind(f)]), Put(Build(front + [f], "", value), v)), Closer(f)[0])
            == Some(Reader(State(After, Kinds(front)), Put(Build(front, "", value), Closed(Added(f, v)))))
  {
    hide Next, Put;
    var b := Build(front, "", value);
    PutWithin(b, f, v);
    Closes(show, Reader(State(After, Kinds(front) + [Kind(f)]), Within(b, Added(f, v))), b, Kinds(front), Added(f, v));
  }

  lemma {:induction false} ClosersRead(show: string -> string, fs: seq<Frame>, v: Json, value: Json)
    ensures Read(show, Reader(State(After, Kinds(fs)), Put(Build(fs, "", value), v)), Closing(Kinds(fs)))
            == Some(Reader(State(After, []), Build([], "", CloseAll(fs, v))))
    decreases |fs|
  {
    hide Next;
    if fs == [] {
      assert Closing(Kinds(fs)) == "";
    } else {
      var front, f := fs[..|fs| - 1], fs[|fs| - 1];
      hide Put;
      CloserReads(show, front, f, v, value);
      ClosersRead(show, front, Closed(Added(f, v)), value);
      ClosingSnoc(Kinds(front), Kind(f));
      assert front + [f] == fs && Closer(f) == [Closer(f)[0]];
      assert Closing(Kinds(fs))[1..] == Closing(Kinds(front)) && Closing(Kinds(fs))[0] == Closer(f)[0];
    }
  }

  // ----- strings in the text and in the dump

  /** No backslash is followed by `u`. */
  predicate NoUnicodeEscapes(s: string) {
    forall i :: 0 <= i < |s| - 1 && s[i] == '\\' ==> s[i + 1] != 'u'
  }

  /** What may stand between quotes, apart from \u escapes. */
  predicate WellEscaped(raw: string)
    decreases |raw|
  {
    raw == "" ||
    if raw[0] == '\\' then |raw| > 1 && raw[1] in "\"\\/bfnrt" && WellEscaped(raw[2..])
    else raw[0] != '"' && raw[0] as int >= 0x20 && WellEscaped(raw[1..])
  }

  /** The number of characters of the first element of a raw string. */
  function ElementSize(raw: string): (n: nat)
    requires WellEscaped(raw) && raw != ""
    ensures 1 <= n <= 2 && n <= |raw| && WellEscaped(raw[n..])
  {
    if raw[0] == '\\' then 2 else 1
  }

  lemma {:induction false} WellEscapedJoin(a: string, b: string)
    requires WellEscaped(a) && WellEscaped(b)
    ensures WellEscaped(a + b)
    decreases |a|
  {
    if a == "" {
      assert a + b == b;
    } else {
      var n := if a[0] == '\\' then 2 else 1;
      assert (a + b)[n..] == a[n..] + b;
      WellEscapedJoin(a[n..], b);
    }
  }

  lemma {:induction false} UnescapedJoin(a: string, b: string)
    requires WellEscaped(a)
    ensures Unescaped(a + b) == Unescaped(a) + Unescaped(b)
    decreases |a|
  {
    if a == "" {
      assert a + b == b && Unescaped(a) == "";
    } else {
      var n := ElementSize(a);
      var c := if a[0] == '\\' then Meaning(a[1]) else a[0];
      assert a[0] == '\\' ==> a[1] != 'u';
      hide Unescaped, Meaning, WellEscaped;
      UnescapedFront(a, n, c);
      FrontJoin(a, b, n, c);
      UnescapedJoin(a[n..], b);
      JoinCons(c, Unescaped(a[n..]), Unescaped(b));
    }
  }

  lemma JoinCons(c: char, s: string, t: string)
    ensures [c] + (s + t) == [c] + s + t
  {
  }

  lemma UnescapedFront(a: string, n: nat, c: char)
    requires a != "" && (if a[0] == '\\' then |a| > 1 && a[1] != 'u' && n == 2 && c == Meaning(a[1]) else n == 1 && c == a[0])
    ensures Unescaped(a) == [c] + Unescaped(a[n..])
  {
    hide Unescaped, Meaning;
    if a[0] == '\\' {
      UnescapedTwo(a[1], a[2..]);
      assert a == ['\\', a[1]] + a[2..];
    } else {
      UnescapedOne(a[0], a[1..]);
      assert a == [a[0]] + a[1..];
    }
  }

  lemma FrontJoin(a: string, b: string, n: nat, c: char)
    requires a != "" && (if a[0] == '\\' then |a| > 1 && a[1] != 'u' && n == 2 && c == Meaning(a[1]) else n == 1 && c == a[0])
    ensures Unescaped(a + b) == [c] + Unescaped(a[n..] + b)
  {
    UnescapedFront(a + b, n, c);
    assert (a + b)[n..] == a[n..] + b;
  }

  lemma WellEscapedAppend(a: string, b: string)
    requires WellEscaped(a) && WellEscaped(b)
    ensures WellEscaped(a + b) && Unescaped(a + b) == Unescaped(a) + Unescaped(b)
  {
    WellEscapedJoin(a, b);
    UnescapedJoin(a, b);
  }

  lemma WellEscapedOne(c: char)
    requires c != '"' && c != '\\' && c as int >= 0x20
    ensures WellEscaped([c]) && Unescaped([c]) == [c]
  {
    assert [c][1..] == "" && Unescaped("") == "";
  }

  lemma WellEscapedPair(c: char)
    requires c in "\"\\/bfnrt"
    ensures WellEscaped(['\\', c]) && Unescaped(['\\', c]) == [Meaning(c)]
  {
    assert ['\\', c][2..] == "" && Unescaped("") == "";
  }

  lemma {:induction false} DigitsUnescaped(s: string)
    requires forall c :: c in s ==> IsDigit(c)
    ensures WellEscaped(s) && Unescaped(s) == s
    decreases |s|
  {
    if s != [] {
      assert s[0] in s && forall c :: c in s[1..] ==> c in s;
      DigitsUnescaped(s[1..]);
      WellEscapedOne(s[0]);
      WellEscapedAppend([s[0]], s[1..]);
      assert [s[0]] + s[1..] == s;
    }
  }

  /** The string does not show the marker where it is dumped. */
  predicate Unseen(s: string, marker: string) {
    !Contains(EscapeAll(s), marker)
  }

  /** What is dumped for the first element. */
  function ElementShown(raw: string): string
    requires WellEscaped(raw) && raw != ""
  {
    if raw[0] == '\\' then Escape(Meaning(raw[1])) else [raw[0]]
  }

  lemma EscapeCons(c: char, s: string)
    ensures EscapeAll([c] + s) == Escape(c) + EscapeAll(s)
  {
    assert ([c] + s)[1..] == s;
  }

  lemma MeaningShown(c: char)
    requires c in "\"\\/bfnrt"
    ensures var e := Escape(Meaning(c)); 1 <= |e| <= 2 && forall k :: 0 <= k < |e| ==> !IsDigit(e[k])
  {
  }

  lemma EscapeSolid(c: char)
    requires c != '"' && c != '\\' && c as int >= 0x20
    ensures Escape(c) == [c]
  {
  }

  lemma ElementDump(raw: string)
    requires WellEscaped(raw) && raw != ""
    ensures EscapeAll(Unescaped(raw)) == ElementShown(raw) + EscapeAll(Unescaped(raw[ElementSize(raw)..]))
    ensures ElementSize(raw) == 1 ==> ElementShown(raw) == [raw[0]]
    ensures ElementSize(raw) == 2 ==>
              var e := ElementShown(raw); 1 <= |e| <= 2 && forall k :: 0 <= k < |e| ==> !IsDigit(e[k])
  {
    hide Unescaped, EscapeAll, Escape, Meaning;
    if raw[0] == '\\' {
      UnescapedTwo(raw[1], raw[2..]);
      assert raw == ['\\', raw[1]] + raw[2..];
      EscapeCons(Meaning(raw[1]), Unescaped(raw[2..]));
      MeaningShown(raw[1]);
    } else {
      UnescapedOne(raw[0], raw[1..]);
      assert raw == [raw[0]] + raw[1..];
      EscapeCons(raw[0], Unescaped(raw[1..]));
      EscapeSolid(raw[0]);
    }
  }

  /** Digits at the beginning of the dump are at the beginning of the raw string. */
  lemma {:induction false} DigitsFirst(raw: string, m: string)
    requires WellEscaped(raw) && m <= EscapeAll(Unescaped(raw)) && forall c :: c in m ==> IsDigit(c)
    ensures m <= raw
    decreases |raw|
  {
    if raw == "" {
      assert EscapeAll(Unescaped(raw)) == "";
    } else if m != "" {
      ElementDump(raw);
      hide EscapeAll, Unescaped, ElementShown, WellEscaped, IsDigit;
      var n, e := ElementSize(raw), ElementShown(raw);
      var rest := EscapeAll(Unescaped(raw[n..]));
      assert m[0] in m && m[0] == (e + rest)[0] == e[0];
      if n == 1 {
        assert forall c :: c in m[1..] ==> c in m;
        assert m == (e + rest)[..|m|] && m[1..] == rest[..|m| - 1];
        DigitsFirst(raw[1..], m[1..]);
        assert m == [m[0]] + m[1..] && raw == [raw[0]] + raw[1..];
      }
    }
  }

  /** A run of digits inside a text that begins with something else. */
  lemma BehindElement(e: string, rest: string, m: string, i: nat)
    requires DigitMarker(m) && Occurs(e + rest, m, i)
    requires i < |e| ==> !IsDigit(e[i])
    ensures i >= |e| && Occurs(rest, m, i - |e|)
  {
    OccursWithin(e + rest, m, i, 0);
    assert m[0] in m;
    if i >= |e| {
      assert (e + rest)[i..i + |m|] == rest[i - |e|..i - |e| + |m|];
    }
  }

  lemma DigitsAtFront(raw: string, m: string)
    requires WellEscaped(raw) && Occurs(EscapeAll(Unescaped(raw)), m, 0) && DigitMarker(m)
    ensures Contains(raw, m)
  {
    hide EscapeAll, Unescaped, WellEscaped;
    assert m == EscapeAll(Unescaped(raw))[..|m|];
    DigitsFirst(raw, m);
    assert raw[0..|m|] == m;
    ContainsAt(raw, m, 0);
  }

  lemma ContainsBehind(s: string, n: nat, m: string)
    requires n <= |s| && Contains(s[n..], m)
    ensures Contains(s, m)
  {
    ContainsPart(s[..n], s[n..], "", m);
    assert s[..n] + s[n..] + "" == s;
  }

  /** Digits that are not at the front are in what is dumped behind the first element. */
  lemma DigitsBehind(raw: string, m: string, i: nat)
    requires WellEscaped(raw) && raw != "" && i > 0 && Occurs(EscapeAll(Unescaped(raw)), m, i) && DigitMarker(m)
    ensures i >= |ElementShown(raw)|
    ensures Occurs(EscapeAll(Unescaped(raw[ElementSize(raw)..])), m, i - |ElementShown(raw)|)
  {
    ElementDump(raw);
    hide EscapeAll, Unescaped, ElementShown, WellEscaped, DigitMarker, Occurs, IsDigit;
    BehindElement(ElementShown(raw), EscapeAll(Unescaped(raw[ElementSize(raw)..])), m, i);
  }

  /** Digits anywhere in the dump are somewhere in the raw string. */
  lemma {:induction false} DigitsSomewhere(raw: string, m: string, i: nat)
    requires WellEscaped(raw) && raw != "" && Occurs(EscapeAll(Unescaped(raw)), m, i) && DigitMarker(m)
    ensures Contains(raw, m)
    decreases |raw|
  {
    hide EscapeAll, Unescaped, ElementShown, WellEscaped, Contains, DigitMarker, Occurs;
    if i == 0 {
      DigitsAtFront(raw, m);
    } else {
      var n, k := ElementSize(raw), i - |ElementShown(raw)|;
      DigitsBehind(raw, m, i);
      NothingShows(raw[n..], m, k);
      DigitsSomewhere(raw[n..], m, k);
      ContainsBehind(raw, n, m);
    }
  }

  lemma NothingShows(raw: string, m: string, i: nat)
    requires Occurs(EscapeAll(Unescaped(raw)), m, i) && DigitMarker(m)
    ensures raw != ""
  {
    assert raw == "" ==> EscapeAll(Unescaped(raw)) == "";
  }

  /** A raw string without the marker is dumped without it. */
  lemma RawUnseen(raw: string, marker: string)
    requires WellEscaped(raw) && DigitMarker(marker) && !Contains(raw, marker)
    ensures Unseen(Unescaped(raw), marker)
  {
    hide Find, EscapeAll, Unescaped;
    var found := Find(EscapeAll(Unescaped(raw)), marker, 0);
    if found.Some? {
      NothingShows(raw, marker, found.value);
      DigitsSomewhere(raw, marker, found.value);
    }
  }

  // ----- what is known of a reader that has read a text without the marker

  predicate Suffix(s: string, e: string) {
    |e| <= |s| && s[|s| - |e|..] == e
  }

  /** Something has been put into the innermost container. */
  predicate TopFilled(fs: seq<Frame>) {
    fs == [] ||
    match fs[|fs| - 1]
    case ArrayFrame(items) => items != []
    case ObjectFrame(members, _) => members != []
  }

  /** After a value, and where the next one or the next key is awaited, the container is not empty; it is where the first is. */
  predicate FilledWhere(st: State, fs: seq<Frame>) {
    && (st.mode.After? || st.mode.ObjectKey? ==> TopFilled(fs))
    && (st.mode.Value? && st.stack != [] && Top(st.stack).InArray? ==> TopFilled(fs))
    && (st.mode.ArrayFirst? || st.mode.ObjectFirst? ==> !TopFilled(fs))
  }

  /** The strings of what has been read. */
  function Texts(b: Build): set<string> {
    FramesStrings(b.frames) + StringsIn(b.value)
  }

  predicate AllUnseen(strings: set<string>, marker: string) {
    forall s :: s in strings ==> Unseen(s, marker)
  }

  /** The characters of the string under way. */
  predicate TokenFits(mode: Mode, token: string, q: string) {
    mode.Text? ==>
      && Suffix(q, token)
      && match mode.part
         case Plain => WellEscaped(token)
         case Utf8(_) => WellEscaped(token)
         case Backslash => token != "" && token[|token| - 1] == '\\' && WellEscaped(token[..|token| - 1])
         case _ => false
  }

  predicate Tracks(r: Reader, q: string, marker: string) {
    && Kinds(r.b.frames) == r.st.stack
    && AllUnseen(Texts(r.b), marker)
    && FilledWhere(r.st, r.b.frames)
    && TokenFits(r.st.mode, r.b.token, q)
  }

  // ----- one character more

  lemma PutFrames(b: Build, v: Json, marker: string)
    requires AllUnseen(Texts(b), marker) && AllUnseen(StringsIn(v), marker) && marker != ""
    ensures AllUnseen(Texts(Put(b, v)), marker)
    ensures Kinds(Put(b, v).frames) == Kinds(b.frames) && TopFilled(Put(b, v).frames)
  {
    hide Unseen, StringsIn, MembersStrings, ItemsStrings;
    if b.frames != [] {
      var front, f := b.frames[..|b.frames| - 1], b.frames[|b.frames| - 1];
      AddedStrings(f, v);
      EmptyUnseen(marker);
      var fs := front + [Added(f, v)];
      assert fs[..|fs| - 1] == front && fs[|fs| - 1] == Added(f, v);
    }
  }

  lemma AddedStrings(f: Frame, v: Json)
    ensures FrameStrings(Added(f, v)) <= FrameStrings(f) + StringsIn(v) + {""}
  {
    match f
    case ArrayFrame(items) => ItemsSnoc(items, v);
    case ObjectFrame(members, key) => MembersSnoc(members, Member(key, v));
  }

  lemma EmptyUnseen(marker: string)
    requires marker != ""
    ensures Unseen("", marker)
  {
  }

  lemma KeyedFrames(b: Build, key: string, marker: string)
    requires AllUnseen(Texts(b), marker) && Unseen(key, marker)
    ensures AllUnseen(Texts(Keyed(b, key)), marker)
    ensures Kinds(Keyed(b, key).frames) == Kinds(b.frames)
  {
    hide Unseen, MembersStrings, ItemsStrings;
    if b.frames != [] && b.frames[|b.frames| - 1].ObjectFrame? {
      var front, f := b.frames[..|b.frames| - 1], b.frames[|b.frames| - 1];
      var fs := front + [f.(key := key)];
      assert fs[..|fs| - 1] == front && fs[|fs| - 1] == f.(key := key);
    }
  }

  lemma OpenedFrames(b: Build, f: Frame, marker: string)
    requires AllUnseen(Texts(b), marker) && AllUnseen(FrameStrings(f), marker)
    ensures AllUnseen(Texts(Build(b.frames + [f], "", b.value)), marker)
    ensures Kinds(b.frames + [f]) == Kinds(b.frames) + [Kind(f)]
  {
    hide Unseen, FrameStrings;
    assert (b.frames + [f])[..|b.frames|] == b.frames;
  }

  lemma PoppedFrames(b: Build, marker: string)
    requires b.frames != [] && AllUnseen(Texts(b), marker)
    ensures var front, f := b.frames[..|b.frames| - 1], b.frames[|b.frames| - 1];
            && AllUnseen(Texts(Build(front, "", b.value)), marker) && AllUnseen(StringsIn(Closed(f)), marker)
            && Kinds(front) == Pop(Kinds(b.frames))
  {
    hide Unseen, MembersStrings, ItemsStrings;
    var front, f := b.frames[..|b.frames| - 1], b.frames[|b.frames| - 1];
    assert FrameStrings(f) <= FramesStrings(b.frames);
    assert StringsIn(Closed(f)) <= FrameStrings(f);
  }

  /** A character outside tokens changes the containers as it changes the machine's stack. */
  lemma StructureTracks(st: State, b: Build, c: char, next: State, marker: string)
    requires Between(st, c) == Some(next) && BetweenTokens(st) && FitsTop(st.mode, st.stack)
    requires Kinds(b.frames) == st.stack && AllUnseen(Texts(b), marker) && FilledWhere(st, b.frames)
    requires marker != ""
    ensures var after := Structure(b, c);
            && Kinds(after.frames) == next.stack && AllUnseen(Texts(after), marker)
            && FilledWhere(next, after.frames)
            && (next.mode.Text? ==> c == '"' && after.token == "" && next.mode.part.Plain?)
  {
    if c == '{' || c == '[' {
      OpeningFrames(st, b, c, next, marker);
    } else if c == '}' || c == ']' {
      ClosingFrames(st, b, c, next, marker);
    } else {
      hide TopFilled, Texts, Kinds;
      OtherTracks(st, b.frames, c, next);
    }
  }

  lemma OpeningFrames(st: State, b: Build, c: char, next: State, marker: string)
    requires Between(st, c) == Some(next) && FitsTop(st.mode, st.stack) && (c == '{' || c == '[')
    requires Kinds(b.frames) == st.stack && AllUnseen(Texts(b), marker) && marker != ""
    ensures var after := Structure(b, c);
            && Kinds(after.frames) == next.stack && AllUnseen(Texts(after), marker)
            && FilledWhere(next, after.frames) && !next.mode.Text?
  {
    hide FrameStrings, FramesStrings, StringsIn, Unseen;
    var f := if c == '{' then ObjectFrame([], "") else ArrayFrame([]);
    FreshFrames(marker);
    OpenedFrames(b, f, marker);
    OpeningTracks(st, c, next);
    hide Between, FitsTop;
  }

  lemma ClosingFrames(st: State, b: Build, c: char, next: State, marker: string)
    requires Between(st, c) == Some(next) && FitsTop(st.mode, st.stack) && BetweenTokens(st) && (c == '}' || c == ']')
    requires Kinds(b.frames) == st.stack && AllUnseen(Texts(b), marker) && marker != ""
    ensures var after := Structure(b, c);
            && Kinds(after.frames) == next.stack && AllUnseen(Texts(after), marker)
            && FilledWhere(next, after.frames) && !next.mode.Text?
  {
    hide Put, FramesStrings, StringsIn, Unseen, Texts;
    ClosingStep(st, c, next);
    hide Between, FitsTop;
    PoppedFrames(b, marker);
    PutFrames(Build(b.frames[..|b.frames| - 1], "", b.value), Closed(b.frames[|b.frames| - 1]), marker);
    hide Kinds, TopFilled;
  }

  lemma FreshFrames(marker: string)
    requires marker != ""
    ensures AllUnseen(FrameStrings(ObjectFrame([], "")), marker) && AllUnseen(FrameStrings(ArrayFrame([])), marker)
  {
    EmptyUnseen(marker);
    hide Unseen;
  }

  lemma OpeningTracks(st: State, c: char, next: State)
    requires Between(st, c) == Some(next) && FitsTop(st.mode, st.stack) && (c == '{' || c == '[')
    ensures next == State(if c == '{' then ObjectFirst else ArrayFirst,
                          st.stack + [if c == '{' then InObject else InArray])
  {
    OpeningStep(st, c, next);
  }

  lemma OtherTracks(st: State, fs: seq<Frame>, c: char, next: State)
    requires Between(st, c) == Some(next) && BetweenTokens(st) && FitsTop(st.mode, st.stack) && c !in "{[}]"
    requires FilledWhere(st, fs)
    ensures next.stack == st.stack && FilledWhere(next, fs)
    ensures next.mode.Text? ==> c == '"' && next.mode.part.Plain?
  {
    hide TopFilled;
  }

  /** The steps of a string outside \u escapes. */
  lemma PlainSteps(part: TextPart, c: char, next: TextPart)
    requires TextStep(part, c) == Some(next) && (part.Plain? || part.Utf8? || part.Backslash?)
    requires part.Utf8? ==> part.rest != [] && forall r :: r in part.rest ==> 0x80 <= r.0
    requires part.Backslash? ==> c != 'u'
    ensures part.Plain? && c == '\\' ==> next.Backslash?
    ensures part.Plain? && c != '\\' ==> c as int >= 0x20 && (next.Plain? || next.Utf8?)
    ensures part.Utf8? ==> c as int >= 0x80 && (next.Plain? || next.Utf8?)
    ensures part.Backslash? ==> c in "\"\\/bfnrt" && next.Plain?
  {
    if part.Utf8? {
      assert part.rest[0] in part.rest;
    }
  }

  /** One more character of a string. */
  lemma TextTracks(mode: Mode, token: string, q: string, c: char, next: Mode)
    requires mode.Text? && next.Text? && TokenFits(mode, token, q) && TextStep(mode.part, c) == Some(next.part)
    requires mode.part.Plain? ==> c != '"'
    requires mode.part.Utf8? ==> mode.part.rest != [] && forall r :: r in mode.part.rest ==> 0x80 <= r.0
    requires NoUnicodeEscapes(q + [c])
    ensures TokenFits(next, token + [c], q + [c])
  {
    SuffixSnoc(q, token, c);
    AfterBackslash(q, token, c);
    PlainSteps(mode.part, c, next.part);
    PlainCharacter(token, c);
    hide TextStep, WellEscaped, NoUnicodeEscapes;
    if mode.part.Backslash? {
      EscapedCharacter(token, c);
    }
  }

  lemma AfterBackslash(q: string, token: string, c: char)
    requires Suffix(q, token) && NoUnicodeEscapes(q + [c])
    ensures token != "" && token[|token| - 1] == '\\' ==> c != 'u'
  {
    if token != "" {
      assert q[|q| - 1] == q[|q| - |token|..][|token| - 1];
      assert (q + [c])[|q| - 1] == q[|q| - 1] && (q + [c])[|q|] == c;
    }
  }

  lemma SuffixSnoc(s: string, e: string, c: char)
    requires Suffix(s, e)
    ensures Suffix(s + [c], e + [c])
  {
  }

  lemma PlainCharacter(token: string, c: char)
    ensures WellEscaped(token) && c != '"' && c != '\\' && c as int >= 0x20 ==> WellEscaped(token + [c])
    ensures (token + [c])[..|token|] == token && (token + [c])[|token|] == c
  {
    if WellEscaped(token) && c != '"' && c != '\\' && c as int >= 0x20 {
      WellEscapedOne(c);
      WellEscapedJoin(token, [c]);
    }
  }

  lemma EscapedCharacter(token: string, c: char)
    requires token != "" && token[|token| - 1] == '\\' && WellEscaped(token[..|token| - 1])
    requires c in "\"\\/bfnrt"
    ensures WellEscaped(token + [c])
  {
    WellEscapedPair(c);
    WellEscapedJoin(token[..|token| - 1], ['\\', c]);
    assert token + [c] == token[..|token| - 1] + ['\\', c];
  }

  lemma ContainsSuffix(s: string, e: string, marker: string)
    requires Suffix(s, e)
    ensures Contains(e, marker) ==> Contains(s, marker)
  {
    if Contains(e, marker) {
      ContainsPart(s[..|s| - |e|], e, "", marker);
      assert s[..|s| - |e|] + e + "" == s;
    }
  }

  /** The end of a string: what it stands for does not show the marker. */
  lemma TokenUnseen(q: string, token: string, marker: string)
    requires Suffix(q, token) && WellEscaped(token) && DigitMarker(marker) && !Contains(q, marker)
    ensures Unseen(Unescaped(token), marker)
  {
    hide Contains, Unseen, WellEscaped;
    ContainsSuffix(q, token, marker);
    RawUnseen(token, marker);
  }

  lemma PlainStrings(s: string, text: string, token: string, marker: string)
    requires Unseen(s, marker)
    ensures AllUnseen(StringsIn(Str(s)), marker) && AllUnseen(StringsIn(Num(text)), marker)
    ensures AllUnseen(StringsIn(LiteralValue(token)), marker)
  {
    hide Unseen;
  }

  lemma QuoteTracks(show: string -> string, r: Reader, q: string, next: Reader, marker: string)
    requires Tracks(r, q, marker) && r.st.mode.Text? && r.st.mode.part.Plain? && Next(show, r, '"') == Some(next)
    requires DigitMarker(marker) && !Contains(q, marker)
    ensures Tracks(next, q + ['"'], marker)
  {
    hide Unseen, Contains, WellEscaped, DigitMarker, Unescaped, Step;
    var s := Unescaped(r.b.token);
    TokenUnseen(q, r.b.token, marker);
    QuoteEndsToken(show, r, r.st.mode.key, s);
    PlainStrings(s, "", "", marker);
    hide Next;
    NotBlank(marker);
    if r.st.mode.key {
      KeyedFrames(r.b, s, marker);
    } else {
      PutFrames(r.b, Str(s), marker);
    }
  }

  lemma NotBlank(marker: string)
    requires DigitMarker(marker)
    ensures marker != ""
  {
  }

  lemma InTextTracks(show: string -> string, r: Reader, q: string, c: char, next: Reader, marker: string)
    requires Tracks(r, q, marker) && r.st.mode.Text? && !(r.st.mode.part.Plain? && c == '"') && Next(show, r, c) == Some(next)
    requires FitsTop(r.st.mode, r.st.stack) && NoUnicodeEscapes(q + [c])
    ensures Tracks(next, q + [c], marker)
  {
    hide Unseen, TextStep, NoUnicodeEscapes, TokenFits;
    TextTracks(r.st.mode, r.b.token, q, c, next.st.mode);
  }

  lemma LiteralTracks(show: string -> string, r: Reader, q: string, c: char, next: Reader, marker: string)
    requires Tracks(r, q, marker) && r.st.mode.Literal? && Next(show, r, c) == Some(next)
    requires marker != ""
    ensures Tracks(next, q + [c], marker)
  {
    hide Unseen, Put, LiteralValue;
    EmptyUnseen(marker);
    PlainStrings("", "", r.b.token, marker);
    PutFrames(r.b, LiteralValue(r.b.token), marker);
  }

  lemma BetweenTracks(st: State, b: Build, q: string, c: char, next: State, marker: string)
    requires Between(st, c) == Some(next) && BetweenTokens(st) && FitsTop(st.mode, st.stack)
    requires Kinds(b.frames) == st.stack && AllUnseen(Texts(b), marker) && FilledWhere(st, b.frames)
    requires marker != ""
    ensures Tracks(Reader(next, Structure(b, c)), q + [c], marker)
  {
    hide Unseen, Between, Structure;
    StructureTracks(st, b, c, next, marker);
    assert Suffix(q + [c], "") && WellEscaped("");
  }

  lemma NumberTracks(show: string -> string, r: Reader, q: string, c: char, next: Reader, marker: string)
    requires Tracks(r, q, marker) && r.st.mode.Number? && Next(show, r, c) == Some(next)
    requires marker != ""
    ensures Tracks(next, q + [c], marker)
  {
    hide Unseen, Put, Structure, Between;
    if NumberStep(r.st.mode.number, c).None? {
      EmptyUnseen(marker);
      PlainStrings("", show(r.b.token), "", marker);
      PutFrames(r.b, Num(show(r.b.token)), marker);
      BetweenTracks(r.st.(mode := After), Put(r.b, Num(show(r.b.token))), q, c, next.st, marker);
    }
  }

  lemma TracksNext(show: string -> string, r: Reader, q: string, c: char, next: Reader, marker: string)
    requires Tracks(r, q, marker) && FitsTop(r.st.mode, r.st.stack) && Next(show, r, c) == Some(next)
    requires DigitMarker(marker) && !Contains(q, marker) && NoUnicodeEscapes(q + [c])
    ensures Tracks(next, q + [c], marker)
  {
    hide Unseen, Contains, DigitMarker, Between, Structure, Put, FitsTop, NoUnicodeEscapes;
    NotBlank(marker);
    match r.st.mode
    case Text(_, part) =>
      if part.Plain? && c == '"' {
        QuoteTracks(show, r, q, next, marker);
      } else {
        InTextTracks(show, r, q, c, next, marker);
      }
    case Literal(_) => LiteralTracks(show, r, q, c, next, marker);
    case Number(_) => NumberTracks(show, r, q, c, next, marker);
    case _ => BetweenTracks(r.st, r.b, q, c, next.st, marker);
  }

  /** Reading a text without the marker and without \u escapes. */
  lemma {:induction false} TracksText(show: string -> string, q: string, marker: string)
    requires Live(q) && DigitMarker(marker) && !Contains(q, marker) && NoUnicodeEscapes(q)
    ensures Read(show, BEGIN, q).Some? && Tracks(Read(show, BEGIN, q).value, q, marker)
    decreases |q|
  {
    hide Contains, DigitMarker, Next, Step, Tracks;
    ReadState(show, BEGIN, q);
    if q == "" {
      TracksNothing(show, marker);
    } else {
      var front, c := q[..|q| - 1], q[|q| - 1];
      assert q == front + [c];
      LivePrefix(q, |front|);
      PrefixHasNot(q, marker, |front|);
      PrefixPlain(q, |front|);
      TracksText(show, front, marker);
      ReadSnoc(show, BEGIN, front, c);
      ReadState(show, BEGIN, front);
      ShapeHolds(front);
      hide Read;
      TracksNext(show, Read(show, BEGIN, front).value, front, c, Read(show, BEGIN, q).value, marker);
    }
  }

  lemma TracksNothing(show: string -> string, marker: string)
    ensures Read(show, BEGIN, "") == Some(BEGIN) && Tracks(BEGIN, "", marker)
  {
  }

  lemma PrefixPlain(q: string, n: nat)
    requires n <= |q| && NoUnicodeEscapes(q)
    ensures NoUnicodeEscapes(q[..n])
  {
  }

  // ----- the numbers of what has been read

  function Numbers(b: Build): set<string> {
    FramesNumbers(b.frames) + NumbersIn(b.value)
  }

  /** No number in the text is shown with the marker. */
  ghost predicate Quiet(show: string -> string, text: string, marker: string) {
    forall n: string :: NumberText(n) && Contains(text, n) ==> NumberText(show(n)) && !Contains(show(n), marker)
  }

  lemma ContainsThrough(s: string, n: string, p: string)
    requires Contains(s, n) && Contains(n, p)
    ensures Contains(s, p)
  {
    var i := Find(s, n, 0).value;
    ContainsPart(s[..i], n, s[i + |n|..], p);
    assert s[..i] + n + s[i + |n|..] == s;
  }

  /** Numbers that are shown as they are written show no marker that the text does not have. */
  lemma AsWritten(show: string -> string, text: string, marker: string)
    requires !Contains(text, marker) && forall n :: show(n) == n
    ensures Quiet(show, text, marker)
  {
    hide Contains, NumberText;
    forall n: string | NumberText(n) && Contains(text, n)
      ensures NumberText(show(n)) && !Contains(show(n), marker)
    {
      if Contains(n, marker) {
        ContainsThrough(text, n, marker);
      }
    }
  }

  lemma QuietPrefix(show: string -> string, text: string, marker: string, k: nat)
    requires Quiet(show, text, marker) && k <= |text|
    ensures Quiet(show, text[..k], marker)
  {
    hide Contains, NumberText;
    forall n: string | NumberText(n) && Contains(text[..k], n)
      ensures Contains(text, n)
    {
      if !Contains(text, n) {
        PrefixHasNot(text, n, k);
      }
    }
  }

  /** The characters of the number under way. */
  predicate NumberFits(mode: Mode, token: string, q: string) {
    mode.Number? ==>
      && Suffix(q, token) && token != "" && (IsDigit(token[0]) || token[0] == '-')
      && Run(START, token) == Some(State(mode, []))
  }

  predicate Counts(r: Reader, q: string, marker: string) {
    TextsClear(Numbers(r.b), marker) && NumberFits(r.st.mode, r.b.token, q)
  }

  lemma PutNumbers(b: Build, v: Json)
    ensures Numbers(Put(b, v)) <= Numbers(b) + NumbersIn(v)
  {
    hide ItemsNumbers, MembersNumbers, NumbersIn;
    if b.frames != [] {
      var front, f := b.frames[..|b.frames| - 1], b.frames[|b.frames| - 1];
      AddedNumbers(f, v);
      var fs := front + [Added(f, v)];
      assert fs[..|fs| - 1] == front && fs[|fs| - 1] == Added(f, v);
    }
  }

  lemma AddedNumbers(f: Frame, v: Json)
    ensures FrameNumbers(Added(f, v)) == FrameNumbers(f) + NumbersIn(v)
  {
    match f
    case ArrayFrame(items) => ItemsSnoc(items, v);
    case ObjectFrame(members, key) => MembersSnoc(members, Member(key, v));
  }

  lemma KeyedNumbers(b: Build, key: string)
    ensures Numbers(Keyed(b, key)) <= Numbers(b)
  {
    hide MembersNumbers, NumbersIn;
    if b.frames != [] && b.frames[|b.frames| - 1].ObjectFrame? {
      var front, f := b.frames[..|b.frames| - 1], b.frames[|b.frames| - 1];
      var fs := front + [f.(key := key)];
      assert fs[..|fs| - 1] == front && fs[|fs| - 1] == f.(key := key);
    }
  }

  lemma StructureNumbers(b: Build, c: char)
    ensures Numbers(Structure(b, c)) <= Numbers(b)
  {
    hide NumbersIn, Put;
    if c == '{' || c == '[' {
      var f := if c == '{' then ObjectFrame([], "") else ArrayFrame([]);
      assert (b.frames + [f])[..|b.frames|] == b.frames && FrameNumbers(f) == {};
    } else if (c == '}' || c == ']') && b.frames != [] {
      var front, f := b.frames[..|b.frames| - 1], b.frames[|b.frames| - 1];
      ClosedNumbers(f);
      PutNumbers(Build(front, "", b.value), Closed(f));
    }
  }

  lemma ClosedNumbers(f: Frame)
    ensures NumbersIn(Closed(f)) == FrameNumbers(f)
  {
  }

  lemma NumberStrings(text: string)
    ensures StringsIn(Num(text)) == {} && NumbersIn(Num(text)) == {text}
  {
  }

  /** A number has just ended. */
  predicate NumberStops(st: State, c: char) {
    st.mode.Number? && NumberStep(st.mode.number, c).None?
  }

  lemma BuiltNumbers(show: string -> string, st: State, b: Build, c: char)
    ensures Numbers(Built(show, st, b, c)) <= Numbers(b) + if NumberStops(st, c) then {show(b.token)} else {}
  {
    hide FramesNumbers, Put, Keyed, Structure, Unescaped, NumberStep;
    PutNumbers(b, Str(Unescaped(b.token)));
    KeyedNumbers(b, Unescaped(b.token));
    PutNumbers(b, LiteralValue(b.token));
    PutNumbers(b, Num(show(b.token)));
    StructureNumbers(b, c);
    StructureNumbers(Put(b, Num(show(b.token))), c);
  }

  lemma EndedNumber(st: State, token: string, q: string, c: char)
    requires NumberFits(st.mode, token, q) && NumberStops(st, c) && Step(st, c).Some?
    ensures NumberText(token) && Contains(q, token)
  {
    assert q[|q| - |token|..|q|] == q[|q| - |token|..];
    ContainsAt(q, token, |q| - |token|);
  }

  lemma NumberGoesOn(show: string -> string, r: Reader, q: string, c: char, next: Reader)
    requires NumberFits(r.st.mode, r.b.token, q) && r.st.mode.Number? && !NumberStops(r.st, c)
    requires Next(show, r, c) == Some(next)
    ensures NumberFits(next.st.mode, next.b.token, q + [c])
  {
    hide Run, Put, Structure;
    SuffixSnoc(q, r.b.token, c);
    RunSnoc(START, r.b.token, c);
  }

  lemma NumberStarts(st: State, b: Build, q: string, c: char, next: State)
    requires Between(st, c) == Some(next) && BetweenTokens(st)
    ensures NumberFits(next.mode, Structure(b, c).token, q + [c])
  {
    hide Put;
    if next.mode.Number? {
      assert [c][1..] == [] && Run(START, [c]) == Step(START, c);
    }
  }

  lemma NumberNext(show: string -> string, r: Reader, q: string, c: char, next: Reader)
    requires NumberFits(r.st.mode, r.b.token, q) && Next(show, r, c) == Some(next)
    ensures NumberFits(next.st.mode, next.b.token, q + [c])
  {
    hide Between, Structure, NumberStep, Run, TextStep, Put, Keyed, Unescaped;
    match r.st.mode
    case Text(_, _) =>
    case Literal(_) =>
    case Number(_) =>
      if NumberStops(r.st, c) {
        NumberStarts(r.st.(mode := After), Put(r.b, Num(show(r.b.token))), q, c, next.st);
      } else {
        NumberGoesOn(show, r, q, c, next);
      }
    case _ => NumberStarts(r.st, r.b, q, c, next.st);
  }

  lemma CountsNext(show: string -> string, r: Reader, q: string, c: char, next: Reader, marker: string)
    requires Counts(r, q, marker) && Quiet(show, q, marker) && Next(show, r, c) == Some(next)
    ensures Counts(next, q + [c], marker)
  {
    hide Built, Contains, NumberStops, NumberFits, NumberText, Numbers, Step;
    BuiltNumbers(show, r.st, r.b, c);
    NumberNext(show, r, q, c, next);
    if NumberStops(r.st, c) {
      EndedNumber(r.st, r.b.token, q, c);
    }
  }

  /** Reading a text of which no number is shown with the marker. */
  lemma {:induction false} CountsText(show: string -> string, q: string, marker: string)
    requires Live(q) && Quiet(show, q, marker)
    ensures Read(show, BEGIN, q).Some? && Counts(Read(show, BEGIN, q).value, q, marker)
    decreases |q|
  {
    hide Counts, Next, Quiet, Step;
    ReadState(show, BEGIN, q);
    if q == "" {
      CountsNothing(show, marker);
    } else {
      var front, c := q[..|q| - 1], q[|q| - 1];
      assert q == front + [c];
      LivePrefix(q, |front|);
      QuietPrefix(show, q, marker, |front|);
      CountsText(show, front, marker);
      ReadSnoc(show, BEGIN, front, c);
      hide Read;
      CountsNext(show, Read(show, BEGIN, front).value, front, c, Read(show, BEGIN, q).value, marker);
    }
  }

  /** A number text ends in a digit. */
  lemma NumberEndsInDigit(n: string)
    requires NumberText(n)
    ensures n != "" && IsDigit(n[|n| - 1])
  {
    hide Run, Step;
    ShapeHolds(n);
  }

  /** A character that is no digit brings no number into the text. */
  lemma QuietSnoc(show: string -> string, q: string, x: char, marker: string)
    requires Quiet(show, q, marker) && !IsDigit(x)
    ensures Quiet(show, q + [x], marker)
  {
    hide NumberText, Find;
    forall n: string | NumberText(n) && Contains(q + [x], n)
      ensures Contains(q, n)
    {
      var i := Find(q + [x], n, 0).value;
      NumberEndsInDigit(n);
      OccursRoom(q + [x], n, i);
      OccursWithin(q + [x], n, i, |n| - 1);
      assert q[i..i + |n|] == (q + [x])[i..i + |n|];
      ContainsAt(q, n, i);
    }
  }

  lemma QuietLead(show: string -> string, q: string, lead: string, marker: string)
    requires Quiet(show, q, marker) && IsLead(lead)
    ensures Quiet(show, q + lead, marker)
  {
    hide Quiet;
    if lead == "" {
      assert q + lead == q;
    } else if |lead| == 1 {
      assert lead == [lead[0]];
      QuietSnoc(show, q, lead[0], marker);
    } else {
      assert lead == [lead[0]] + ['"'] && q + lead == q + [lead[0]] + ['"'];
      QuietSnoc(show, q, lead[0], marker);
      QuietSnoc(show, q + [lead[0]], '"', marker);
    }
  }

  lemma CountsNothing(show: string -> string, marker: string)
    ensures Read(show, BEGIN, "") == Some(BEGIN) && Counts(BEGIN, "", marker)
  {
  }

  // ----- a value with one string to be filled in

  predicate HoleFits(fs: seq<Frame>, key: bool) {
    key ==> fs != [] && fs[|fs| - 1].ObjectFrame?
  }

  function Renamed(fs: seq<Frame>, text: string): seq<Frame>
    requires HoleFits(fs, true)
  {
    fs[..|fs| - 1] + [fs[|fs| - 1].(key := text)]
  }

  /** The value in which the string under way, a key or a value, has become `text`; a key gets a number as its value. */
  function Hole(fs: seq<Frame>, key: bool, text: string, one: string): Json
    requires HoleFits(fs, key)
  {
    if key then CloseAll(Renamed(fs, text), Num(one)) else CloseAll(fs, Str(text))
  }

  function Before(fs: seq<Frame>, key: bool): string
    requires HoleFits(fs, key)
  {
    if key then OpenText(fs[..|fs| - 1]) + HeadText(fs[|fs| - 1]) else OpenText(fs)
  }

  function Behind(fs: seq<Frame>, key: bool, one: string): string {
    (if key then ":" + one else "") + Closing(Kinds(fs))
  }

  lemma RenamedParts(fs: seq<Frame>, text: string)
    requires HoleFits(fs, true)
    ensures OpenText(Renamed(fs, text)) == Before(fs, true) + DumpString(text) + ":"
    ensures Kinds(Renamed(fs, text)) == Kinds(fs)
    ensures FramesStrings(Renamed(fs, text)) <= FramesStrings(fs) + {text} && text in FramesStrings(Renamed(fs, text))
    ensures FramesNumbers(Renamed(fs, text)) == FramesNumbers(fs)
  {
    hide DumpString, HeadText, MembersStrings, MembersNumbers;
    var front, f := fs[..|fs| - 1], fs[|fs| - 1];
    var to := Renamed(fs, text);
    assert to[..|to| - 1] == front && to[|to| - 1] == f.(key := text);
    SameHead(f.members, f.key, text);
    assert OpenText(front) + (HeadText(f) + (DumpString(text) + ":")) == OpenText(front) + HeadText(f) + DumpString(text) + ":";
  }

  lemma HoleDump(fs: seq<Frame>, key: bool, text: string, one: string)
    requires HoleFits(fs, key)
    ensures Dump(Hole(fs, key, text, one)) == Before(fs, key) + DumpString(text) + Behind(fs, key, one)
  {
    hide OpenText, Closing, Kinds, CloseAll, DumpString;
    if key {
      RenamedParts(fs, text);
      ClosedDump(Renamed(fs, text), Num(one));
      hide Before;
      assert Before(fs, key) + DumpString(text) + ":" + one + Closing(Kinds(fs))
          == Before(fs, key) + DumpString(text) + (":" + one + Closing(Kinds(fs)));
    } else {
      ClosedDump(fs, Str(text));
      assert "" + Closing(Kinds(fs)) == Closing(Kinds(fs));
    }
  }

  lemma HoleStrings(fs: seq<Frame>, key: bool, text: string, one: string)
    requires HoleFits(fs, key)
    ensures text in StringsIn(Hole(fs, key, text, one))
    ensures StringsIn(Hole(fs, key, text, one)) <= FramesStrings(fs) + {text}
    ensures NumbersIn(Hole(fs, key, text, one)) == FramesNumbers(fs) + if key then {one} else {}
  {
    hide FramesStrings, FramesNumbers, CloseAll, Renamed;
    if key {
      RenamedParts(fs, text);
      ClosedStrings(Renamed(fs, text), Num(one));
    } else {
      ClosedStrings(fs, Str(text));
    }
  }

  lemma UnseenIsFaithful(s: string, marker: string)
    requires DigitMarker(marker) && Unseen(s, marker)
    ensures FaithfulText(s, marker) && !Contains(s, marker)
  {
    hide Contains;
    if Contains(s, marker) {
      EscapeKeeps(s, marker);
    }
  }

  /** With the marker filled in, the value is faithful and has it; without, its dump does not show it. */
  lemma HoleFacts(fs: seq<Frame>, key: bool, text: string, one: string, marker: string)
    requires HoleFits(fs, key) && DigitMarker(marker) && AllUnseen(FramesStrings(fs), marker) && Unseen(text, marker)
    requires NumbersClear(Hole(fs, key, text + marker, one), marker)
    ensures HasMarker(Hole(fs, key, text + marker, one), marker) && Faithful(Hole(fs, key, text + marker, one), marker)
    ensures !Contains(Dump(Hole(fs, key, text, one)), marker)
  {
    hide Contains, DigitMarker, Unseen, FaithfulText, NumberText, Hole, HoleFits, FramesStrings, FramesNumbers, Dump;
    var with', without := Hole(fs, key, text + marker, one), Hole(fs, key, text, one);
    HoleStrings(fs, key, text + marker, one);
    HoleStrings(fs, key, text, one);
    forall s | s in FramesStrings(fs) + {text}
      ensures FaithfulText(s, marker) && !Contains(s, marker)
    {
      UnseenIsFaithful(s, marker);
    }
    EndsInMarker(text, marker);
    assert TextsFaithful(StringsIn(with'), marker) && TextsFaithful(StringsIn(without), marker);
    FaithfulStrings(with', marker);
    FaithfulStrings(without, marker);
    MarkerInStrings(with', marker);
    MarkerInStrings(without, marker);
    DumpShows(without, marker);
  }

  lemma EndsInMarker(text: string, marker: string)
    ensures Contains(text + marker, marker) && FaithfulText(text + marker, marker)
  {
    assert (text + marker)[|text|..|text| + |marker|] == marker;
    ContainsAt(text + marker, marker, |text|);
  }

  // ----- the lead stands before the marker

  lemma LeadEndsPlain(x: string, lead: string)
    requires IsLead(lead) && lead != "" && Suffix(x, lead)
    ensures x != "" && !IsDigit(x[|x| - 1])
  {
    assert x[|x| - 1] == x[|x| - |lead|..][|lead| - 1];
  }

  /** Put between texts that do not show it, and next to no digit, the marker occurs just there. */
  lemma OnlyThere(x: string, y: string, marker: string, i: nat)
    requires DigitMarker(marker) && !Contains(x, marker) && !Contains(y, marker)
    requires x != "" && !IsDigit(x[|x| - 1]) && y != "" && !IsDigit(y[0])
    requires Occurs(x + marker + y, marker, i)
    ensures i == |x|
  {
    hide Contains, DigitMarker;
    var text := x + marker + y;
    assert text[|x| - 1] == x[|x| - 1] && text[|x| + |marker|] == y[0];
    OccursRoom(text, marker, i);
    if i < |x| {
      OccursInFront(text, marker, |x|, i);
      assert text[..|x|] == x;
      if i + |marker| <= |x| {
        assert x[i..i + |marker|] == text[i..i + |marker|];
        ContainsAt(x, marker, i);
      } else {
        DigitAt(text, marker, i, |x| - 1);
      }
    } else if i > |x| {
      var at := |x| + |marker|;
      if i >= at {
        assert y[i - at..i - at + |marker|] == text[i..i + |marker|];
        ContainsAt(y, marker, i - at);
      } else {
        DigitAt(text, marker, i, at);
      }
    }
  }

  lemma DigitAt(text: string, marker: string, i: nat, k: nat)
    requires DigitMarker(marker) && Occurs(text, marker, i) && i <= k < i + |marker|
    ensures k < |text| && IsDigit(text[k])
  {
    OccursWithin(text, marker, i, k - i);
    assert marker[k - i] in marker;
  }

  lemma LedInserted(x: string, y: string, lead: string, marker: string)
    requires DigitMarker(marker) && IsLead(lead) && Suffix(x, lead)
    requires !Contains(x, marker) && !Contains(y, marker) && y != "" && !IsDigit(y[0])
    ensures Led(x + marker + y, lead, marker)
  {
    hide Contains, DigitMarker;
    var text := x + marker + y;
    forall i: nat | Occurs(text, marker, i)
      ensures i >= |lead| && Occurs(text, lead + marker, i - |lead|)
    {
      if lead == "" {
        assert lead + marker == marker;
      } else {
        LeadEndsPlain(x, lead);
        OnlyThere(x, y, marker, i);
        assert text[|x| - |lead|..|x|] == lead && text[|x|..|x| + |marker|] == marker;
        assert text[|x| - |lead|..|x| - |lead| + |lead + marker|] == lead + marker;
      }
    }
  }

  lemma PartsClear(x: string, y: string, marker: string)
    ensures Contains(x, marker) || Contains(y, marker) ==> Contains(x + y, marker)
  {
    hide Find;
    assert "" + x + y == x + y && x + y + "" == x + y;
    if Contains(x, marker) {
      ContainsPart("", x, y, marker);
    }
    if Contains(y, marker) {
      ContainsPart(x, y, "", marker);
    }
  }

  lemma Requoted(a: string, e: string, m: string, b: string)
    ensures a + ("\"" + e + "\"") + b == a + "\"" + e + ("\"" + b)
    ensures a + ("\"" + (e + m) + "\"") + b == a + "\"" + e + m + ("\"" + b)
  {
  }

  /** The dump on both sides of the end of the string. */
  lemma HoleSides(fs: seq<Frame>, key: bool, text: string, one: string, marker: string)
    requires HoleFits(fs, key) && DigitMarker(marker)
    ensures var x, y := Before(fs, key) + "\"" + EscapeAll(text), "\"" + Behind(fs, key, one);
            && Dump(Hole(fs, key, text, one)) == x + y
            && Dump(Hole(fs, key, text + marker, one)) == x + marker + y
  {
    hide Before, Behind, Hole, HoleFits, EscapeAll, Dump;
    HoleDump(fs, key, text, one);
    HoleDump(fs, key, text + marker, one);
    EscapeAppend(text, marker);
    EscapeDigits(marker);
    Requoted(Before(fs, key), EscapeAll(text), marker, Behind(fs, key, one));
  }

  lemma HoleLed(fs: seq<Frame>, key: bool, text: string, one: string, lead: string, marker: string)
    requires HoleFits(fs, key) && DigitMarker(marker) && IsLead(lead)
    requires Suffix(Before(fs, key) + "\"" + EscapeAll(text), lead)
    requires !Contains(Dump(Hole(fs, key, text, one)), marker)
    ensures Led(Dump(Hole(fs, key, text + marker, one)), lead, marker)
  {
    hide Contains, Before, Behind, Hole, HoleFits, EscapeAll, Dump, Led, Suffix, DigitMarker, IsLead;
    var x, y := Before(fs, key) + "\"" + EscapeAll(text), "\"" + Behind(fs, key, one);
    HoleSides(fs, key, text, one, marker);
    PartsClear(x, y, marker);
    assert y[0] == '"';
    LedInserted(x, y, lead, marker);
  }

  // ----- reading the marker and what follows it

  lemma DigitsSafe(marker: string)
    requires DigitMarker(marker)
    ensures StringSafe(marker) && '"' !in marker
  {
  }

  lemma TokenUnused(b: Build, token: string, key: bool, text: string)
    requires HoleFits(b.frames, key)
    ensures Put(b.(token := token), Str(text)) == Put(b, Str(text))
    ensures key ==> Keyed(b.(token := token), text) == Build(Renamed(b.frames, text), "", b.value)
  {
  }

  lemma MarkerReads(show: string -> string, r: Reader, key: bool, marker: string)
    requires r.st.mode == Text(key, Plain) && DigitMarker(marker) && WellEscaped(r.b.token) && HoleFits(r.b.frames, key)
    ensures var text := Unescaped(r.b.token) + marker;
            Read(show, r, marker + ['"'])
            == Some(Reader(State(if key then Colon else After, r.st.stack),
                           if key then Build(Renamed(r.b.frames, text), "", r.b.value) else Put(r.b, Str(text))))
  {
    hide Next, Read, Put, Keyed, Unescaped, WellEscaped, Renamed;
    var text := Unescaped(r.b.token) + marker;
    DigitsSafe(marker);
    MarkerRun(r.st, marker);
    TextReads(show, r, marker);
    ReadSnoc(show, r, marker, '"');
    DigitsUnescaped(marker);
    WellEscapedAppend(r.b.token, marker);
    QuoteEndsToken(show, r.(b := r.b.(token := r.b.token + marker)), key, text);
    TokenUnused(r.b, r.b.token + marker, key, text);
  }

  /** A string value: the marker, the quote, and the closers. */
  lemma ValueTailReads(show: string -> string, r: Reader, marker: string)
    requires r.st.mode == Text(false, Plain) && Kinds(r.b.frames) == r.st.stack
    requires DigitMarker(marker) && WellEscaped(r.b.token)
    ensures var text := Unescaped(r.b.token) + marker;
            Read(show, r, marker + ("\"" + Closing(r.st.stack)))
            == Some(Reader(State(After, []), Build([], "", Hole(r.b.frames, false, text, ""))))
  {
    hide Next, Read, Put, Unescaped, WellEscaped, DigitMarker, Closing, CloseAll;
    var closing := Closing(r.st.stack);
    var text := Unescaped(r.b.token) + marker;
    assert marker + ("\"" + closing) == marker + ['"'] + closing;
    ReadAppend(show, r, marker + ['"'], closing);
    MarkerReads(show, r, false, marker);
    PutSame(r.b, Str(text));
    ClosersRead(show, r.b.frames, Str(text), r.b.value);
  }

  lemma OneReads(show: string -> string, stack: seq<Container>, b: Build)
    ensures Read(show, Reader(State(Colon, stack), b), [':', ' ', '1'])
            == Some(Reader(State(Number(Integer), stack), b.(token := "1")))
  {
    var value := Reader(State(Value, stack), b);
    assert Next(show, Reader(State(Colon, stack), b), ':') == Some(value);
    assert Next(show, value, ' ') == Some(value);
    assert Next(show, value, '1') == Some(Reader(State(Number(Integer), stack), b.(token := "1")));
    hide Next;
    ReadOne(show, value, '1');
    assert [':', ' ', '1'][1..] == [' ', '1'] && [' ', '1'][1..] == ['1'];
  }

  /** The first closer completes a number. */
  lemma NumberCloses(show: string -> string, r: Reader, b: Build)
    requires r.st.mode == Number(Integer) && r.st.stack != [] && Put(r.b, Num(show(r.b.token))) == b
    ensures Read(show, r, Closing(r.st.stack)) == Read(show, Reader(State(After, r.st.stack), b), Closing(r.st.stack))
  {
    hide Next, Put;
    var c := Closing(r.st.stack)[0];
    assert c in ",]}";
    CompleteNext(show, r, r.st.stack, b, c);
  }

  /** A key: the marker, the quote, a colon and a number, and the closers. */
  lemma KeyTailReads(show: string -> string, r: Reader, marker: string)
    requires r.st.mode == Text(true, Plain) && Kinds(r.b.frames) == r.st.stack && HoleFits(r.b.frames, true)
    requires DigitMarker(marker) && WellEscaped(r.b.token)
    ensures var text := Unescaped(r.b.token) + marker;
            Read(show, r, marker + ("\": 1" + Closing(r.st.stack)))
            == Some(Reader(State(After, []), Build([], "", Hole(r.b.frames, true, text, show("1")))))
  {
    hide Next, Read, Put, Unescaped, WellEscaped, DigitMarker, Closing, CloseAll, Renamed;
    var closing := Closing(r.st.stack);
    var text := Unescaped(r.b.token) + marker;
    var fs := Renamed(r.b.frames, text);
    var b := Build(fs, "", r.b.value);
    assert marker + ("\": 1" + closing) == marker + ['"'] + ([':', ' ', '1'] + closing);
    ReadAppend(show, r, marker + ['"'], [':', ' ', '1'] + closing);
    MarkerReads(show, r, true, marker);
    ReadAppend(show, Reader(State(Colon, r.st.stack), b), [':', ' ', '1'], closing);
    OneReads(show, r.st.stack, b);
    PutToken(b, "1", Num(show("1")));
    NumberCloses(show, Reader(State(Number(Integer), r.st.stack), b.(token := "1")), Put(b, Num(show("1"))));
    RenamedParts(r.b.frames, text);
    ClosersRead(show, fs, Num(show("1")), r.b.value);
  }

  // ----- what acceptance says about the place of the marker

  predicate TailOf(tail: string, wanted: seq<Container>) {
    tail == "\"" + Closing(wanted) || tail == "\": 1" + Closing(wanted)
  }

  /** The string under way may stop anywhere but inside a \u escape. */
  predicate NotInEscape(mode: Mode) {
    mode.Text? ==>
      || mode.part.Plain? || mode.part.Backslash?
      || (mode.part.Utf8? && forall r :: r in mode.part.rest ==> 0x80 <= r.0)
  }

  lemma TailQuote(tail: string, wanted: seq<Container>)
    requires TailOf(tail, wanted)
    ensures tail != "" && tail[0] == '"' && '"' !in tail[1..]
    ensures tail[1..] == Closing(wanted) || tail[1..] == [':'] + ([' '] + (['1'] + Closing(wanted)))
  {
    var closing := Closing(wanted);
    if tail == "\"" + closing {
      assert tail[1..] == closing;
    } else {
      assert tail[1..] == [':'] + ([' '] + (['1'] + closing));
    }
  }

  /** A completed text has its marker inside a string. */
  lemma MarkerInString(st: State, marker: string, tail: string, wanted: seq<Container>)
    requires FitsTop(st.mode, st.stack) && NotInEscape(st.mode) && DigitMarker(marker)
    requires TailOf(tail, wanted) && AcceptsFrom(st, marker + tail)
    ensures st.mode.Text? && st.mode.part.Plain?
  {
    hide AcceptsFrom, FitsTop;
    TailQuote(tail, wanted);
    DigitsSafe(marker);
    if !st.mode.Text? {
      assert marker + "\"" + tail[1..] == marker + tail;
      OneQuote(st, marker, tail[1..]);
    } else if !st.mode.part.Plain? {
      DigitRefused(st, marker[0], marker);
      Blocked(st, marker, tail);
    }
  }

  lemma DigitRefused(st: State, c: char, marker: string)
    requires DigitMarker(marker) && c == marker[0] && st.mode.Text? && !st.mode.part.Plain? && NotInEscape(st.mode)
    ensures Step(st, c).None?
  {
    assert c in marker;
    if st.mode.part.Utf8? && st.mode.part.rest != [] {
      assert st.mode.part.rest[0] in st.mode.part.rest;
    }
  }

  lemma NumberUnwinds(stack: seq<Container>, wanted: seq<Container>)
    ensures AcceptsFrom(State(Number(Integer), stack), Closing(wanted)) <==> stack == wanted
  {
    var number, after, closing := State(Number(Integer), stack), State(After, stack), Closing(wanted);
    Unwind(stack, wanted);
    if wanted != [] {
      assert closing == [closing[0]] + closing[1..];
      assert Step(number, closing[0]) == Step(after, closing[0]);
      RunCons(number, closing[0], closing[1..]);
      RunCons(after, closing[0], closing[1..]);
    }
  }

  /** A completed text closes what is open, and gives a key a value. */
  lemma TailMatches(st: State, key: bool, marker: string, tail: string, wanted: seq<Container>)
    requires st.mode == Text(key, Plain) && DigitMarker(marker) && TailOf(tail, wanted) && AcceptsFrom(st, marker + tail)
    ensures wanted == st.stack && tail == (if key then "\": 1" else "\"") + Closing(st.stack)
  {
    var rest := tail[1..];
    TailQuote(tail, wanted);
    TailForms(wanted);
    DigitsSafe(marker);
    hide Step, Closing, TailOf, DigitMarker;
    RunAppend(st, marker, tail);
    MarkerRun(st, marker);
    assert tail == ['"'] + rest;
    RunCons(st, '"', rest);
    QuoteStep(st, key);
    if key {
      ColonTail(st.stack, rest, wanted);
    } else {
      AfterTail(st.stack, rest, wanted);
    }
  }

  lemma TailForms(wanted: seq<Container>)
    ensures ['"'] + Closing(wanted) == "\"" + Closing(wanted)
    ensures ['"'] + ([':'] + ([' '] + (['1'] + Closing(wanted)))) == "\": 1" + Closing(wanted)
  {
  }

  lemma QuoteStep(st: State, key: bool)
    requires st.mode == Text(key, Plain)
    ensures Step(st, '"') == Some(State(if key then Colon else After, st.stack))
  {
  }

  lemma AfterTail(stack: seq<Container>, rest: string, wanted: seq<Container>)
    requires rest == Closing(wanted) || rest == [':'] + ([' '] + (['1'] + Closing(wanted)))
    requires AcceptsFrom(State(After, stack), rest)
    ensures rest == Closing(wanted) && wanted == stack
  {
    if rest != Closing(wanted) {
      RunCons(State(After, stack), ':', [' '] + (['1'] + Closing(wanted)));
    }
    Unwind(stack, wanted);
  }

  lemma NoCloserAfterColon(stack: seq<Container>, wanted: seq<Container>)
    ensures !AcceptsFrom(State(Colon, stack), Closing(wanted))
  {
    var closing := Closing(wanted);
    if closing != "" {
      assert closing[0] in closing;
      Blocked(State(Colon, stack), closing, "");
      assert closing + "" == closing;
    }
  }

  lemma ColonTail(stack: seq<Container>, rest: string, wanted: seq<Container>)
    requires rest == Closing(wanted) || rest == [':'] + ([' '] + (['1'] + Closing(wanted)))
    requires AcceptsFrom(State(Colon, stack), rest)
    ensures rest == [':'] + ([' '] + (['1'] + Closing(wanted))) && wanted == stack
  {
    var closing := Closing(wanted);
    NoCloserAfterColon(stack, wanted);
    RunCons(State(Colon, stack), ':', [' '] + (['1'] + closing));
    RunCons(State(Value, stack), ' ', ['1'] + closing);
    RunCons(State(Value, stack), '1', closing);
    NumberUnwinds(stack, wanted);
  }

  // ----- where the lead was put

  /** What is dumped in front of the marker, for a reader whose string goes on. */
  function Shown(r: Reader): string
    requires r.st.mode.Text? && HoleFits(r.b.frames, r.st.mode.key)
  {
    Before(r.b.frames, r.st.mode.key) + "\"" + EscapeAll(Unescaped(r.b.token))
  }

  lemma KeyHasFrame(fs: seq<Frame>, mode: Mode, stack: seq<Container>)
    requires FitsTop(mode, stack) && Kinds(fs) == stack && mode.Text?
    ensures HoleFits(fs, mode.key)
  {
  }

  lemma SuffixBehind(a: string, b: string, e: string)
    requires Suffix(b, e)
    ensures Suffix(a + b, e)
  {
  }

  lemma EscapeOne(c: char)
    ensures EscapeAll([c]) == Escape(c)
  {
    EscapeCons(c, "");
    assert [c] + "" == [c] && EscapeAll("") == "" && Escape(c) + "" == Escape(c);
  }

  /** An escape at the end of the string ends what is dumped. */
  lemma EscapeShows(t: string, c: char)
    requires WellEscaped(t) && (c == '"' || c == '\\')
    ensures Suffix(EscapeAll(Unescaped(t + ['\\', c])), [c])
  {
    WellEscapedPair(c);
    assert Meaning(c) == c && Suffix(Escape(c), [c]);
    hide Unescaped, EscapeAll, Escape, Meaning, WellEscaped;
    UnescapedJoin(t, ['\\', c]);
    EscapeAppend(Unescaped(t), [c]);
    EscapeOne(c);
    SuffixBehind(EscapeAll(Unescaped(t)), Escape(c), [c]);
  }

  /** A quote or a backslash that escapes the character before it. */
  lemma EscapedLead(r0: Reader, r1: Reader, q: string, c: char)
    requires r0.st.mode.Text? && r0.st.mode.part.Backslash? && TokenFits(r0.st.mode, r0.b.token, q)
    requires r1.st.mode.Text? && HoleFits(r1.b.frames, r1.st.mode.key) && r1.b.token == r0.b.token + [c]
    requires c == '"' || c == '\\'
    ensures Suffix(Shown(r1), [c])
  {
    hide Before, EscapeAll, Unescaped, HoleFits;
    var t := r0.b.token[..|r0.b.token| - 1];
    assert r1.b.token == t + ['\\', c];
    EscapeShows(t, c);
    SuffixBehind(Before(r1.b.frames, r1.st.mode.key) + "\"", EscapeAll(Unescaped(r1.b.token)), [c]);
  }

  /** A string that has just been opened. */
  lemma FreshShown(r: Reader)
    requires r.st.mode.Text? && HoleFits(r.b.frames, r.st.mode.key) && r.b.token == ""
    ensures Shown(r) == Before(r.b.frames, r.st.mode.key) + ['"']
  {
    hide Before;
    assert Unescaped("") == "" && EscapeAll("") == "";
  }

  /** ASCII is refused in the middle of a UTF-8 sequence. */
  lemma NotInSequence(mode: Mode, c: char)
    requires NotInEscape(mode) && c as int < 0x80
    ensures mode.Text? && mode.part.Utf8? ==> TextStep(mode.part, c).None?
  {
    if mode.Text? && mode.part.Utf8? && mode.part.rest != [] {
      assert mode.part.rest[0] in mode.part.rest;
    }
  }

  /** A quote after which a string goes on escapes or opens. */
  lemma QuoteInto(show: string -> string, r0: Reader, r1: Reader, q: string)
    requires Next(show, r0, '"') == Some(r1) && r1.st.mode.Text? && TokenFits(r0.st.mode, r0.b.token, q)
    requires NotInEscape(r0.st.mode) && FitsTop(r0.st.mode, r0.st.stack)
    ensures r0.st.mode.Text? ==> r0.st.mode.part.Backslash? && r1.b.token == r0.b.token + ['"']
    ensures !r0.st.mode.Text? ==>
              && r1.b == r0.b.(token := "") && r1.st.stack == r0.st.stack && BetweenTokens(r0.st)
              && (r1.st.mode.key <==> r0.st.mode.ObjectFirst? || r0.st.mode.ObjectKey?)
  {
    hide Put, Keyed, Unescaped;
    NotInSequence(r0.st.mode, '"');
  }

  lemma LeadQuote(show: string -> string, r0: Reader, r1: Reader, q: string)
    requires Next(show, r0, '"') == Some(r1) && r1.st.mode.Text? && TokenFits(r0.st.mode, r0.b.token, q)
    requires NotInEscape(r0.st.mode) && FitsTop(r0.st.mode, r0.st.stack) && HoleFits(r1.b.frames, r1.st.mode.key)
    ensures Suffix(Shown(r1), "\"")
  {
    hide Next, Before, HoleFits;
    QuoteInto(show, r0, r1, q);
    assert "\"" == ['"'];
    if r0.st.mode.Text? {
      EscapedLead(r0, r1, q, '"');
    } else {
      FreshShown(r1);
      SuffixBehind(Before(r1.b.frames, r1.st.mode.key), ['"'], ['"']);
    }
  }

  lemma LeadBackslash(show: string -> string, r0: Reader, r1: Reader, q: string)
    requires Next(show, r0, '\\') == Some(r1) && r1.st.mode.Text? && r1.st.mode.part.Plain?
    requires TokenFits(r0.st.mode, r0.b.token, q) && NotInEscape(r0.st.mode) && HoleFits(r1.b.frames, r1.st.mode.key)
    ensures Suffix(Shown(r1), "\\")
  {
    BackslashInto(show, r0, r1, q);
    hide Next, Shown;
    assert "\\" == ['\\'];
    EscapedLead(r0, r1, q, '\\');
  }

  lemma BackslashInto(show: string -> string, r0: Reader, r1: Reader, q: string)
    requires Next(show, r0, '\\') == Some(r1) && r1.st.mode.Text? && r1.st.mode.part.Plain?
    requires NotInEscape(r0.st.mode)
    ensures r0.st.mode.Text? && r0.st.mode.part.Backslash? && r1.b.token == r0.b.token + ['\\']
  {
    hide Put, Keyed, Unescaped;
    NotInSequence(r0.st.mode, '\\');
  }

  /** A colon or comma outside strings. */
  lemma ColonInto(show: string -> string, r: Reader, m: Reader)
    requires Next(show, r, ':') == Some(m) && FitsTop(r.st.mode, r.st.stack) && !m.st.mode.Text?
    ensures m.st.mode.Value? && m.st.stack != [] && Top(m.st.stack).InObject?
  {
    hide Built;
  }

  lemma CommaInto(show: string -> string, r: Reader, m: Reader)
    requires Next(show, r, ',') == Some(m) && FitsTop(r.st.mode, r.st.stack) && !m.st.mode.Text?
    ensures m.st.stack != [] && m.st.mode == if Top(m.st.stack).InObject? then ObjectKey else Value
  {
    hide Built;
  }

  /** Inside a string, a colon or comma does not make the quote after it one that goes on. */
  lemma NoQuoteAfter(show: string -> string, r: Reader, c: char, m: Reader)
    requires Next(show, r, c) == Some(m) && (c == ':' || c == ',') && NotInEscape(r.st.mode)
    ensures m.st.mode.Text? ==> !m.st.mode.part.Backslash?
  {
    hide Built;
  }

  lemma ColonText(fs: seq<Frame>)
    requires fs != [] && fs[|fs| - 1].ObjectFrame?
    ensures Suffix(OpenText(fs), ":")
  {
    var f := fs[|fs| - 1];
    SuffixBehind(OpenText(fs[..|fs| - 1]) + (HeadText(f) + DumpString(f.key)), ":", ":");
    assert OpenText(fs) == OpenText(fs[..|fs| - 1]) + (HeadText(f) + DumpString(f.key)) + ":";
  }

  lemma CommaText(fs: seq<Frame>)
    requires fs != [] && TopFilled(fs)
    ensures Suffix(OpenText(fs[..|fs| - 1]) + HeadText(fs[|fs| - 1]), ",")
    ensures fs[|fs| - 1].ArrayFrame? ==> Suffix(OpenText(fs), ",")
  {
    var front, f := OpenText(fs[..|fs| - 1]), fs[|fs| - 1];
    var body := match f case ArrayFrame(items) => "[" + DumpItems(items) case ObjectFrame(members, _) => "{" + DumpMembers(members);
    assert HeadText(f) == body + ",";
    SuffixBehind(body, ",", ",");
    SuffixBehind(front, HeadText(f), ",");
  }

  lemma SuffixQuote(a: string, e: string)
    requires Suffix(a, e)
    ensures Suffix(a + ['"'], e + ['"'])
  {
    SuffixSnoc(a, e, '"');
  }

  lemma LeadColon(show: string -> string, m: Reader, r1: Reader, q: string)
    requires Next(show, m, '"') == Some(r1) && r1.st.mode.Text? && TokenFits(m.st.mode, m.b.token, q)
    requires m.st.mode.Value? && m.st.stack != [] && Top(m.st.stack).InObject? && Kinds(m.b.frames) == m.st.stack
    requires HoleFits(r1.b.frames, r1.st.mode.key)
    ensures Suffix(Shown(r1), ":\"")
  {
    QuoteInto(show, m, r1, q);
    hide Next, HoleFits, OpenText;
    FreshShown(r1);
    ColonText(m.b.frames);
    SuffixQuote(OpenText(m.b.frames), ":");
    assert ":" + ['"'] == ":\"";
  }

  lemma LeadComma(show: string -> string, m: Reader, r1: Reader, q: string)
    requires Next(show, m, '"') == Some(r1) && r1.st.mode.Text? && TokenFits(m.st.mode, m.b.token, q)
    requires FitsTop(m.st.mode, m.st.stack)
    requires m.st.stack != [] && m.st.mode == if Top(m.st.stack).InObject? then ObjectKey else Value
    requires Kinds(m.b.frames) == m.st.stack && FilledWhere(m.st, m.b.frames)
    requires HoleFits(r1.b.frames, r1.st.mode.key)
    ensures Suffix(Shown(r1), ",\"")
  {
    QuoteInto(show, m, r1, q);
    hide Next, OpenText, HeadText, FitsTop, TokenFits;
    FreshShown(r1);
    CommaText(m.b.frames);
    SuffixQuote(Before(m.b.frames, r1.st.mode.key), ",");
    assert "," + ['"'] == ",\"";
  }

  // ----- the healed text

  lemma PlainAdds(q: string, x: char, marker: string)
    requires DigitMarker(marker) && !Contains(q, marker) && NoUnicodeEscapes(q) && !IsDigit(x) && x != 'u'
    ensures !Contains(q + [x], marker) && NoUnicodeEscapes(q + [x])
  {
    hide Contains;
    NotEmpty(marker);
    Separated(q, x, "", marker);
    assert q + [x] + "" == q + [x];
  }

  /** A text without the marker and without \u escapes that the machine reads. */
  predicate Innocent(s: string, marker: string) {
    Live(s) && DigitMarker(marker) && !Contains(s, marker) && NoUnicodeEscapes(s)
  }

  lemma InnocentSnoc(q: string, x: char, marker: string)
    requires Live(q + [x]) && DigitMarker(marker) && !Contains(q, marker) && NoUnicodeEscapes(q) && !IsDigit(x) && x != 'u'
    ensures Innocent(q, marker) && Innocent(q + [x], marker)
  {
    hide Contains, DigitMarker, Run, IsDigit;
    PlainAdds(q, x, marker);
    LivePrefix(q + [x], |q|);
    assert (q + [x])[..|q|] == q;
  }

  function ReaderOf(show: string -> string, s: string): Reader
    requires Live(s)
  {
    ReadState(show, BEGIN, s);
    Read(show, BEGIN, s).value
  }

  lemma ReaderFacts(show: string -> string, q: string, marker: string)
    requires Innocent(q, marker)
    ensures var r := ReaderOf(show, q);
            Tracks(r, q, marker) && r.st == StateOf(q) && FitsTop(r.st.mode, r.st.stack) && NotInEscape(r.st.mode)
    ensures var r := ReaderOf(show, q); r.st.mode.Text? ==> HoleFits(r.b.frames, r.st.mode.key)
  {
    hide Contains, DigitMarker, Unseen, Read, Run, Step;
    ReadState(show, BEGIN, q);
    TracksText(show, q, marker);
    ShapeHolds(q);
    var r := ReaderOf(show, q);
    if r.st.mode.Text? {
      KeyHasFrame(r.b.frames, r.st.mode, r.st.stack);
    }
  }

  lemma ReaderNext(show: string -> string, q: string, x: char)
    requires Live(q + [x])
    ensures Live(q) && Next(show, ReaderOf(show, q), x) == Some(ReaderOf(show, q + [x]))
  {
    hide Next, Run;
    LivePrefix(q + [x], |q|);
    assert (q + [x])[..|q|] == q;
    ReadState(show, BEGIN, q + [x]);
    ReadState(show, BEGIN, q);
    ReadSnoc(show, BEGIN, q, x);
  }

  lemma OneCharacterLead(show: string -> string, q: string, x: char, marker: string)
    requires Live(q + [x]) && DigitMarker(marker) && !Contains(q, marker) && NoUnicodeEscapes(q) && (x == '"' || x == '\\')
    requires ReaderOf(show, q + [x]).st.mode.Text? && ReaderOf(show, q + [x]).st.mode.part.Plain?
    ensures Innocent(q + [x], marker) && HoleFits(ReaderOf(show, q + [x]).b.frames, ReaderOf(show, q + [x]).st.mode.key)
    ensures Suffix(Shown(ReaderOf(show, q + [x])), [x])
  {
    hide Contains, DigitMarker, NoUnicodeEscapes, Live, ReaderOf, Next, Unseen, Shown, HoleFits, Suffix;
    InnocentSnoc(q, x, marker);
    ReaderNext(show, q, x);
    ReaderFacts(show, q, marker);
    ReaderFacts(show, q + [x], marker);
    if x == '"' {
      LeadQuote(show, ReaderOf(show, q), ReaderOf(show, q + [x]), q);
      assert "\"" == ['"'];
    } else {
      LeadBackslash(show, ReaderOf(show, q), ReaderOf(show, q + [x]), q);
      assert "\\" == ['\\'];
    }
  }

  lemma TwoCharacterLead(show: string -> string, q: string, x: char, marker: string)
    requires Live(q + [x] + ['"']) && DigitMarker(marker) && !Contains(q, marker) && NoUnicodeEscapes(q) && (x == ':' || x == ',')
    requires ReaderOf(show, q + [x] + ['"']).st.mode.Text? && ReaderOf(show, q + [x] + ['"']).st.mode.part.Plain?
    ensures var r := ReaderOf(show, q + [x] + ['"']);
            Innocent(q + [x] + ['"'], marker) && HoleFits(r.b.frames, r.st.mode.key) && Suffix(Shown(r), [x] + ['"'])
  {
    hide Contains, DigitMarker, NoUnicodeEscapes, Live, ReaderOf, Next, Unseen, Shown, HoleFits, Suffix;
    ReaderNext(show, q + [x], '"');
    ReaderNext(show, q, x);
    InnocentSnoc(q, x, marker);
    InnocentSnoc(q + [x], '"', marker);
    ReaderFacts(show, q, marker);
    ReaderFacts(show, q + [x], marker);
    ReaderFacts(show, q + [x] + ['"'], marker);
    var r, m, r1 := ReaderOf(show, q), ReaderOf(show, q + [x]), ReaderOf(show, q + [x] + ['"']);
    NoQuoteAfter(show, r, x, m);
    QuoteInto(show, m, r1, q + [x]);
    if x == ':' {
      ColonInto(show, r, m);
      LeadColon(show, m, r1, q + [x]);
      assert ":\"" == [':'] + ['"'];
    } else {
      CommaInto(show, r, m);
      LeadComma(show, m, r1, q + [x]);
      assert ",\"" == [','] + ['"'];
    }
  }

  /** Whatever the lead: what is dumped in front of the marker ends in it. */
  lemma LeadShown(show: string -> string, q: string, lead: string, marker: string)
    requires Live(q + lead) && DigitMarker(marker) && !Contains(q, marker) && NoUnicodeEscapes(q) && IsLead(lead)
    requires ReaderOf(show, q + lead).st.mode.Text? && ReaderOf(show, q + lead).st.mode.part.Plain?
    ensures var r := ReaderOf(show, q + lead);
            Innocent(q + lead, marker) && HoleFits(r.b.frames, r.st.mode.key) && Suffix(Shown(r), lead)
  {
    hide Contains, DigitMarker, NoUnicodeEscapes, Live, ReaderOf, Shown, HoleFits;
    if lead == "" {
      assert q + lead == q;
      ReaderFacts(show, q, marker);
    } else if lead == "\"" {
      assert lead == ['"'];
      OneCharacterLead(show, q, '"', marker);
    } else if lead == "\\" {
      assert lead == ['\\'];
      OneCharacterLead(show, q, '\\', marker);
    } else {
      var x := lead[0];
      assert lead == [x] + ['"'] && q + lead == q + [x] + ['"'];
      TwoCharacterLead(show, q, x, marker);
    }
  }

  lemma LeadIsPlain(q: string, lead: string, marker: string)
    requires DigitMarker(marker) && !Contains(q, marker) && NoUnicodeEscapes(q) && IsLead(lead) && Live(q + lead)
    ensures Innocent(q + lead, marker)
  {
    hide Contains, DigitMarker, NoUnicodeEscapes, Live;
    if lead == "" {
      assert q + lead == q;
    } else if |lead| == 1 {
      assert lead == [lead[0]];
      PlainAdds(q, lead[0], marker);
    } else {
      assert lead == [lead[0]] + ['"'] && q + lead == q + [lead[0]] + ['"'];
      PlainAdds(q, lead[0], marker);
      PlainAdds(q + [lead[0]], '"', marker);
    }
  }

  /** The value of a completed text is the value under way with the marker in the string under way. */
  lemma ValueWithMarker(show: string -> string, s: string, key: bool, marker: string, tail: string, wanted: seq<Container>)
    requires Innocent(s, marker) && TailOf(tail, wanted) && Accepts(s + (marker + tail))
    requires StateOf(s).mode == Text(key, Plain)
    ensures var r := ReaderOf(show, s);
            && HoleFits(r.b.frames, key) && wanted == r.st.stack && WellEscaped(r.b.token)
            && ValueOf(show, s + (marker + tail))
               == Hole(r.b.frames, key, Unescaped(r.b.token) + marker, if key then show("1") else "")
  {
    hide Contains, DigitMarker, Next, Read, Unescaped, WellEscaped, Hole, Step, Closing;
    var r := ReaderOf(show, s);
    ReaderFacts(show, s, marker);
    AcceptsAppend(s, marker + tail);
    TailMatches(StateOf(s), key, marker, tail, wanted);
    ReadState(show, BEGIN, s);
    ReadState(show, BEGIN, s + (marker + tail));
    ReadAppend(show, BEGIN, s, marker + tail);
    if key {
      KeyTailReads(show, r, marker);
    } else {
      ValueTailReads(show, r, marker);
    }
  }

  /** Where a marker was put behind a lead: a string is under way, and what is dumped of it ends in the lead. */
  lemma MarkerPlace(show: string -> string, q: string, lead: string, marker: string, tail: string, wanted: seq<Container>)
    requires DigitMarker(marker) && !Contains(q, marker) && NoUnicodeEscapes(q) && IsLead(lead) && TailOf(tail, wanted)
    requires Accepts(q + (lead + marker) + tail) && Quiet(show, q, marker)
    ensures Live(q + lead)
    ensures var r := ReaderOf(show, q + lead);
            && r.st.mode.Text? && r.st.mode.part.Plain? && HoleFits(r.b.frames, r.st.mode.key)
            && wanted == r.st.stack == Kinds(r.b.frames)
            && AllUnseen(FramesStrings(r.b.frames), marker) && TextsClear(FramesNumbers(r.b.frames), marker)
            && WellEscaped(r.b.token) && Unseen(Unescaped(r.b.token), marker) && Suffix(Shown(r), lead)
            && tail == (if r.st.mode.key then "\": 1" else "\"") + Closing(wanted)
            && ValueOf(show, q + (lead + marker) + tail)
               == Hole(r.b.frames, r.st.mode.key, Unescaped(r.b.token) + marker, if r.st.mode.key then show("1") else "")
  {
    hide Contains, DigitMarker, Live, Run, Step, Hole, HoleFits, Unescaped, WellEscaped, Closing, Quiet, Shown,
      NumberFits, Unseen, NoUnicodeEscapes, TailOf, ReaderOf, Suffix, IsLead, TextsClear, FramesStrings,
      FramesNumbers, StringsIn, NumbersIn;
    var s := q + lead;
    assert q + (lead + marker) + tail == s + (marker + tail);
    AcceptsAppend(s, marker + tail);
    LeadIsPlain(q, lead, marker);
    ReaderFacts(show, s, marker);
    MarkerInString(StateOf(s), marker, tail, wanted);
    LeadShown(show, q, lead, marker);
    var r := ReaderOf(show, s);
    ValueWithMarker(show, s, r.st.mode.key, marker, tail, wanted);
    TailMatches(StateOf(s), r.st.mode.key, marker, tail, wanted);
    TokenUnseen(s, r.b.token, marker);
    QuietLead(show, q, lead, marker);
    ReaderCounts(show, s, marker);
  }

  lemma ReaderCounts(show: string -> string, q: string, marker: string)
    requires Live(q) && Quiet(show, q, marker)
    ensures TextsClear(FramesNumbers(ReaderOf(show, q).b.frames), marker)
  {
    hide Quiet, Read, Run, Contains, NumberText;
    CountsText(show, q, marker);
    ReadState(show, BEGIN, q);
  }

  /** The number that a completed key gets as its value, shown without the marker. */
  predicate OneQuiet(show: string -> string, marker: string) {
    NumberText(show("1")) && !Contains(show("1"), marker)
  }

  lemma HoleIsHealed(fs: seq<Frame>, key: bool, text: string, one: string, lead: string, marker: string)
    requires HoleFits(fs, key) && DigitMarker(marker) && IsLead(lead)
    requires AllUnseen(FramesStrings(fs), marker) && TextsClear(FramesNumbers(fs), marker) && Unseen(text, marker)
    requires key ==> NumberText(one) && !Contains(one, marker)
    requires Suffix(Before(fs, key) + "\"" + EscapeAll(text), lead)
    ensures var j := Hole(fs, key, text + marker, one);
            && HasMarker(j, marker) && Faithful(j, marker) && Led(Dump(j), lead, marker)
            && (|Kinds(fs)| > 0 ==> j.Obj? || j.Arr?)
  {
    hide AllUnseen, Before, Contains, DigitMarker, Dump, EscapeAll, Faithful, FramesNumbers, FramesStrings, HasMarker,
      Hole, HoleFits, IsLead, Led, NumberText, Suffix, Unseen;
    HoleStrings(fs, key, text + marker, one);
    HoleFacts(fs, key, text, one, marker);
    HoleLed(fs, key, text, one, lead, marker);
    HoleContainer(fs, key, text + marker, one);
  }

  /**
   The value of a completed text: the marker is in a key or string of it, its dump shows the marker
   nowhere else, and there the lead stands before it.
   */
  lemma HealedText(show: string -> string, q: string, lead: string, marker: string, tail: string, wanted: seq<Container>)
    requires DigitMarker(marker) && !Contains(q, marker) && NoUnicodeEscapes(q) && IsLead(lead) && TailOf(tail, wanted)
    requires Accepts(q + (lead + marker) + tail) && Quiet(show, q, marker)
    requires tail == "\": 1" + Closing(wanted) ==> OneQuiet(show, marker)
    ensures var j := ValueOf(show, q + (lead + marker) + tail);
            && HasMarker(j, marker) && Faithful(j, marker) && Led(Dump(j), lead, marker)
            && (wanted != [] ==> j.Obj? || j.Arr?)
  {
    hide Contains, DigitMarker, Live, Run, Step, Hole, HoleFits, Unescaped, WellEscaped, HasMarker, Faithful, Led,
      NumberText, Dump, NoUnicodeEscapes, TailOf, ReaderOf, Suffix, IsLead, Quiet, FramesNumbers, FramesStrings,
      Unseen, Before, EscapeAll, TextsClear, AllUnseen;
    MarkerPlace(show, q, lead, marker, tail, wanted);
    var r := ReaderOf(show, q + lead);
    var key := r.st.mode.key;
    HoleIsHealed(r.b.frames, key, Unescaped(r.b.token), if key then show("1") else "", lead, marker);
  }

  lemma HoleContainer(fs: seq<Frame>, key: bool, text: string, one: string)
    requires HoleFits(fs, key)
    ensures |Kinds(fs)| > 0 ==> Hole(fs, key, text, one).Obj? || Hole(fs, key, text, one).Arr?
  {
    if key {
      ClosedContainer(Renamed(fs, text), Num(one));
    } else if fs != [] {
      ClosedContainer(fs, Str(text));
    }
  }
}

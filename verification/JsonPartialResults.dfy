/** What healing means for its callers: when it is total, when it is not, and what the marker gives back. */
module JsonPartialResults {
  import opened Base
  import opened JsonMachine
  import opened JsonShape
  import opened JsonCompletion
  import opened JsonErrorLocator
  import opened JsonHealing
  import opened JsonParse

  // ----- totality on prefixes of JSON texts

  /** ASCII text in which no backslash is followed by `u`. */
  predicate PlainAscii(s: string) {
    && (forall i :: 0 <= i < |s| ==> s[i] as int < 0x80)
    && (forall i :: 0 <= i < |s| - 1 && s[i] == '\\' ==> s[i + 1] != 'u')
  }

  lemma MidStarts(st: State, c: char, next: State)
    requires Step(st, c) == Some(next) && MidElement(next)
    ensures MidElement(st) || c as int >= 0x80 || (st.mode.Text? && st.mode.part.Backslash? && c == 'u')
  {
  }

  lemma {:induction false} PlainNeverMid(s: string)
    requires Live(s) && PlainAscii(s)
    ensures !MidElement(StateOf(s))
  {
    if s != [] {
      var front, c := s[..|s| - 1], s[|s| - 1];
      assert s == front + [c];
      RunSnoc(START, front, c);
      PlainNeverMid(front);
      ShapeHolds(front);
      if MidElement(StateOf(s)) {
        MidStarts(StateOf(front), c, StateOf(s));
      }
    }
  }

  /**
   Every prefix of a JSON text that stops inside a container is parsed when it is plain ASCII: the
   completed text is a JSON text, and all of the prefix has been consumed.
   */
  lemma PrefixOfJsonHeals(s: string, t: string, marker: string)
    requires Accepts(s + t) && marker != "" && StringSafe(marker)
    ensures Live(s)
    ensures PlainAscii(s) && StateOf(s).stack != [] ==>
              var out := Parsed(s, marker);
              out.Partial? && out.consumed == |s| && Accepts(out.healing.text)
  {
    hide Parsed;
    RunAppend(START, s, t);
    if PlainAscii(s) && StateOf(s).stack != [] {
      PlainNeverMid(s);
      OpenIsHealed(s, marker);
      ParsedIsSound(s, marker);
    }
  }

  // ----- stops inside a \u escape or a UTF-8 sequence

  predicate HasOpener(content: string, container: Container) {
    exists i :: 0 <= i < |content| && content[i] in Openers(container)
  }

  /**
   A text that stopped in a string value is cut back to a place where a value starts iff the
   string, as far as it was read, contains no opener: no colon in an object, no bracket or comma
   in an array.
   */
  lemma TextCutLands(front: string, content: string)
    requires Live(front) && AwaitsValue(StateOf(front).mode) && StateOf(front).stack != []
    requires forall n :: 0 <= n <= |content| ==>
               Live(front + "\"" + content[..n]) && StateOf(front + "\"" + content[..n]).mode.Text?
    ensures var stack := StateOf(front).stack;
            CutLands(front + "\"" + content, Top(stack), stack) <==> !HasOpener(content, Top(stack))
  {
    var stack := StateOf(front).stack;
    var top := Top(stack);
    var s := front + "\"";
    ShapeHolds(front);
    assert s + content[..0] == s;
    CutLandsSnoc(front, '"', top, stack);
    if HasOpener(content, top) {
      OpenerInContent(s, content, top, stack);
    } else {
      NoOpenerCut(s, content, top, stack);
    }
  }

  /**
   A text that stopped in a key is cut back to a place where a value starts iff the key, as far as it
   was read, contains no colon and the text in front of the key can be cut back so.
   */
  lemma KeyCutLands(front: string, content: string)
    requires Live(front) && (StateOf(front).mode.ObjectFirst? || StateOf(front).mode.ObjectKey?)
    requires forall n :: 0 <= n <= |content| ==>
               Live(front + "\"" + content[..n]) && StateOf(front + "\"" + content[..n]).mode.Text?
    ensures var stack := StateOf(front).stack;
            CutLands(front + "\"" + content, InObject, stack)
            <==> !HasOpener(content, InObject) && CutLands(front, InObject, stack)
  {
    hide Step, Run;
    var stack := StateOf(front).stack;
    var s := front + "\"";
    CutLandsSnoc(front, '"', InObject, stack);
    if HasOpener(content, InObject) {
      OpenerInContent(s, content, InObject, stack);
    } else {
      NoOpenerCut(s, content, InObject, stack);
    }
  }

  lemma OpenerInContent(s: string, content: string, top: Container, stack: seq<Container>)
    requires HasOpener(content, top)
    requires forall n :: 0 <= n <= |content| ==> Live(s + content[..n]) && StateOf(s + content[..n]).mode.Text?
    ensures !CutLands(s + content, top, stack)
  {
    hide Step, Run;
    var i :| 0 <= i < |content| && content[i] in Openers(top);
    assert (s + content)[|s| + i] == content[i];
    var p := LastIndexOf(s + content, Openers(top)).value;
    var n := p + 1 - |s|;
    assert (s + content)[..p + 1] == s + content[..n];
  }

  /** The state in a container is that of the same text alone, with the container's stack below. */
  lemma {:induction false} RunInside(below: seq<Container>, st: State, s: string)
    requires Run(st, s).Some?
    ensures Run(State(st.mode, below + st.stack), s) == Some(State(Run(st, s).value.mode, below + Run(st, s).value.stack))
    decreases |s|
  {
    if s != [] {
      var next := Step(st, s[0]).value;
      StepInside(below, st, s[0], next);
      hide Step;
      RunInside(below, next, s[1..]);
    }
  }

  lemma StepInside(below: seq<Container>, st: State, c: char, next: State)
    requires Step(st, c) == Some(next)
    ensures Step(State(st.mode, below + st.stack), c) == Some(State(next.mode, below + next.stack))
  {
    if st.mode.Number? && NumberStep(st.mode.number, c).None? {
      BetweenInside(below, st.(mode := After), c, next);
    } else if !st.mode.Text? && !st.mode.Literal? && !st.mode.Number? {
      BetweenInside(below, st, c, next);
    }
  }

  lemma BetweenInside(below: seq<Container>, st: State, c: char, next: State)
    requires Between(st, c) == Some(next)
    ensures Between(State(st.mode, below + st.stack), c) == Some(State(next.mode, below + next.stack))
  {
    assert below + (st.stack + [InObject]) == below + st.stack + [InObject];
    assert below + (st.stack + [InArray]) == below + st.stack + [InArray];
    if st.stack != [] {
      assert Top(below + st.stack) == Top(st.stack);
      assert Pop(below + st.stack) == below + Pop(st.stack);
    }
  }

  /**
   Where a key is awaited after a member, cutting back lands on that member's colon iff its value, a
   JSON text, contains no colon.
   */
  lemma AfterMember(a: string, v: string)
    requires Live(a + ":") && StateOf(a + ":").mode.Value? && Accepts(v)
    ensures var stack := StateOf(a + ":").stack;
            CutLands(a + ":" + v + ",", InObject, stack) <==> ':' !in v
  {
    hide Step, Run;
    var s, stack := a + ":", StateOf(a + ":").stack;
    CutLandsSnoc(s + v, ',', InObject, stack);
    if ':' in v {
      var i :| 0 <= i < |v| && v[i] == ':';
      assert (s + v)[|s| + i] == v[i];
      var p := LastIndexOf(s + v, ":").value;
      var n := p + 1 - |s|;
      assert (s + v)[..p + 1] == s + v[..n] && v[n - 1] == (s + v)[p];
      ColonInside(s, v, n, stack);
    } else {
      NoOpenerCut(s, v, InObject, stack);
      CutLandsHere(a, ':', InObject, stack);
    }
  }

  /** After a colon inside a value, something more is open than around the value. */
  lemma ColonInside(s: string, v: string, n: nat, stack: seq<Container>)
    requires Live(s) && StateOf(s) == State(Value, stack) && Accepts(v) && 0 < n <= |v| && v[n - 1] == ':'
    ensures Live(s + v[..n])
    ensures !(AwaitsValue(StateOf(s + v[..n]).mode) && StateOf(s + v[..n]).stack == stack)
  {
    hide Step;
    LivePrefix(v, n);
    var st := StateOf(v[..n]);
    RunAppend(START, s, v[..n]);
    RunInside(stack, START, v[..n]);
    assert stack + [] == stack;
    if AwaitsValue(st.mode) {
      ColonNests(v[..n]);
    }
    assert |stack + st.stack| == |stack| + |st.stack|;
  }

  lemma ColonNests(s: string)
    requires Live(s) && s != [] && s[|s| - 1] == ':' && AwaitsValue(StateOf(s).mode)
    ensures StateOf(s).stack != []
  {
    hide Run, Step, Tail, CutLands;
    var front := s[..|s| - 1];
    assert s == front + [':'];
    RunSnoc(START, front, ':');
    ShapeHolds(front);
    ColonStep(StateOf(front), StateOf(s));
  }

  lemma ColonStep(st: State, next: State)
    requires FitsTop(st.mode, st.stack) && Step(st, ':') == Some(next) && AwaitsValue(next.mode)
    ensures next.stack != []
  {
  }

  /** Where an object that is a member's value has just been opened, cutting back lands outside it. */
  lemma ObjectAsMember(a: string, blanks: string)
    requires Live(a) && StateOf(a).mode.Value? && StateOf(a).stack != [] && Top(StateOf(a).stack).InObject?
    requires forall k :: 0 <= k < |blanks| ==> blanks[k] in BLANKS
    ensures !CutLands(a + "{" + blanks, InObject, StateOf(a).stack + [InObject])
  {
    hide Step, Run;
    var stack := StateOf(a).stack + [InObject];
    ShapeHolds(a);
    NoOpenerCut(a, "{", InObject, stack);
    NoOpenerCut(a + "{", blanks, InObject, stack);
    assert |StateOf(a).stack| != |stack|;
  }

  lemma {:induction false} NoOpenerCut(s: string, content: string, top: Container, stack: seq<Container>)
    requires !HasOpener(content, top)
    ensures CutLands(s + content, top, stack) == CutLands(s, top, stack)
  {
    if content == [] {
      assert s + content == s;
    } else {
      var front, c := content[..|content| - 1], content[|content| - 1];
      assert s + content == (s + front) + [c];
      forall i | 0 <= i < |front|
        ensures front[i] !in Openers(top)
      {
        assert content[i] == front[i];
      }
      CutLandsSnoc(s + front, c, top, stack);
      NoOpenerCut(s, front, top, stack);
    }
  }

  lemma ReadsOn(s: string, st: State, c: char, next: State)
    requires Run(START, s) == Some(st) && Step(st, c) == Some(next)
    ensures Run(START, s + [c]) == Some(next)
  {
    RunSnoc(START, s, c);
  }

  lemma BracketText(s0: string, s1: string, s2: string)
    requires s0 == ['['] && s1 == s0 + ['"'] && s2 == s1 + ['[']
    ensures Run(START, s2) == Some(State(Text(false, Plain), [InArray]))
  {
    var stack := [InArray];
    assert START.stack + [InArray] == stack;
    var text := State(Text(false, Plain), stack);
    ReadsOn([], START, '[', State(ArrayFirst, stack));
    assert [] + ['['] == s0;
    hide Run;
    ReadsOn(s0, State(ArrayFirst, stack), '"', text);
    ReadsOn(s1, text, '[', text);
  }

  lemma BracketSteps(s0: string, s1: string, s2: string, s: string)
    requires s0 == ['['] && s1 == s0 + ['"'] && s2 == s1 + ['['] && s == s2 + ['\\'] + ['u']
    ensures Open(s) && MidElement(StateOf(s)) && !Healable(s)
  {
    hide Run, CutLands, Closing;
    var stack := [InArray];
    var text, escape := State(Text(false, Plain), stack), State(Text(false, Backslash), stack);
    BracketText(s0, s1, s2);
    ReadsOn(s2, text, '\\', escape);
    ReadsOn(s2 + ['\\'], escape, 'u', State(Text(false, Hex(0, 0, false)), stack));
    CutLandsHereText(s2, "\\u", stack);
    assert s == s2 + "\\u";
  }

  /** `["[\u` is cut back to a bracket inside the string: completing it throws. */
  lemma BracketBeforeEscape()
    ensures var s := "[\"[\\u"; Open(s) && MidElement(StateOf(s)) && !Healable(s)
  {
    BracketSteps("[", "[\"", "[\"[", "[\"[\\u");
  }

  /** When the last opener was read inside a string, a cut does not land. */
  lemma CutLandsHereText(front: string, after: string, stack: seq<Container>)
    requires Live(front) && StateOf(front).mode.Text? && EndsWith(front, "[,")
    requires forall i :: 0 <= i < |after| ==> after[i] !in "[,"
    ensures !CutLands(front + after, InArray, stack)
  {
    var p := LastIndexOf(front + after, "[,");
    assert (front + after)[|front| - 1] == front[|front| - 1];
    forall k | |front| <= k < |front + after|
      ensures (front + after)[k] !in "[,"
    {
      assert (front + after)[k] == after[k - |front|];
    }
    assert (front + after)[..p.value + 1] == front;
  }

  // ----- the dump marker

  /** What the source's marker is: the decimal digits of a number. */
  predicate DigitMarker(marker: string) {
    marker != [] && forall c :: c in marker ==> IsDigit(c)
  }

  predicate IsLead(lead: string) {
    lead in ["", "\"", ":\"", ",\"", "\\"]
  }

  lemma OccursWithin(s: string, p: string, i: nat, k: nat)
    requires Occurs(s, p, i) && k < |p|
    ensures s[i + k] == p[k]
  {
    assert s[i..i + |p|][k] == p[k];
  }

  /** A copy of the dump marker within what was kept has a copy of the marker within it. */
  lemma MarkerWithin(kept: string, lead: string, marker: string, tail: string, k: nat)
    requires k + |lead + marker| <= |kept|
    ensures Occurs(kept + (lead + marker) + tail, lead + marker, k) ==> Occurs(kept, marker, k + |lead|)
  {
    var dump := lead + marker;
    var text := kept + dump + tail;
    assert text[k..k + |dump|][|lead|..] == kept[k + |lead|..k + |dump|];
    assert dump[|lead|..] == marker;
  }

  /** A dump marker with a lead occurs for the first time where it was put. */
  lemma LeadFindsItself(kept: string, lead: string, marker: string, tail: string)
    requires DigitMarker(marker) && IsLead(lead) && lead != [] && !Contains(kept, marker)
    ensures Find(kept + (lead + marker) + tail, lead + marker, 0) == Some(|kept|)
  {
    var dump := lead + marker;
    var text := kept + dump + tail;
    assert Occurs(text, dump, |kept|);
    forall k: nat | k < |kept|
      ensures !Occurs(text, dump, k)
    {
      if k + |dump| <= |kept| {
        MarkerWithin(kept, lead, marker, tail, k);
      } else {
        NoOverlap(kept, lead, marker, tail, k);
      }
    }
  }

  /** A copy of the dump marker that began earlier and overlapped it would need a digit where the lead is. */
  lemma NoOverlap(kept: string, lead: string, marker: string, tail: string, k: nat)
    requires DigitMarker(marker) && IsLead(lead) && lead != []
    requires k < |kept| < k + |lead + marker|
    ensures !Occurs(kept + (lead + marker) + tail, lead + marker, k)
  {
    var dump := lead + marker;
    var text := kept + dump + tail;
    var last := |kept| + |lead| - 1;
    var at := if last < k + |dump| then last else |kept|;
    assert !IsDigit(text[at]);
    assert dump[at - k] == marker[at - k - |lead|] && marker[at - k - |lead|] in marker;
    if Occurs(text, dump, k) {
      OccursWithin(text, dump, k, at - k);
    }
  }

  /**
   Without a lead, the marker is found where it was put iff it does not already occur across the
   end of what was kept. That the input does not contain the marker is not enough.
   */
  lemma BareMarkerFindsItself(kept: string, marker: string, tail: string)
    requires marker != []
    ensures Find(kept + marker + tail, marker, 0) == Some(|kept|) <==> Find(kept + marker, marker, 0) == Some(|kept|)
  {
    assert Occurs(kept + marker, marker, |kept|) && Occurs(kept + marker + tail, marker, |kept|);
    forall k: nat | k <= |kept|
      ensures Occurs(kept + marker + tail, marker, k) <==> Occurs(kept + marker, marker, k)
    {
      assert (kept + marker + tail)[k..k + |marker|] == (kept + marker)[k..k + |marker|];
    }
  }

  /** The marker "11" does not occur in a text that ends in 1, yet cutting at it loses that 1. */
  lemma MarkerOverlapsInput(kept: string, marker: string)
    requires EndsWith(kept, "1") && marker == "11" && !Contains(kept, marker)
    ensures Find(kept + marker, marker, 0) != Some(|kept|)
  {
    assert Occurs(kept + marker, marker, |kept| - 1);
  }

  lemma OccursInFront(s: string, p: string, at: nat, i: nat)
    requires at <= |s|
    ensures Occurs(s[..at], p, i) ==> Occurs(s, p, i) && i + |p| <= at
  {
    if i + |p| <= at {
      assert s[..at][i..i + |p|] == s[i..i + |p|];
    }
  }

  lemma PrefixHasNot(s: string, p: string, n: nat)
    requires n <= |s| && !Contains(s, p)
    ensures !Contains(s[..n], p)
  {
    hide Find;
    var found := Find(s[..n], p, 0);
    if found.Some? {
      OccursInFront(s, p, n, found.value);
    }
  }

  /** Cutting the healed text at its dump marker gives back the part of the input that was kept. */
  lemma CutAtDumpMarker(input: string, marker: string, healing: Healing)
    requires healing.Healed? && WellCut(input, marker, healing)
    requires DigitMarker(marker) && !Contains(input, marker)
    ensures var at := Find(healing.text, healing.dumpMarker, 0);
            var kept := input[..healing.kept];
            && at.Some? && at.value <= |kept|
            && (healing.text[..at.value] == kept <==>
                  healing.dumpMarker != marker || Find(kept + marker, marker, 0) == Some(|kept|))
  {
    hide Find;
    var kept := input[..healing.kept];
    PrefixHasNot(input, marker, healing.kept);
    assert Occurs(healing.text, healing.dumpMarker, |kept|);
    if healing.dumpMarker == marker {
      BareMarkerFindsItself(kept, marker, healing.tail);
    } else {
      var lead :| lead in ["\"", ":\"", ",\"", "\\"] && healing.dumpMarker == lead + marker;
      LeadFindsItself(kept, lead, marker, healing.tail);
    }
  }
}

/**
 What is delivered of a reply that is still being written, and of the same reply when more of it has
 arrived (try_consume_json_with_dumped_args in common/chat-parser.cpp): arguments are not taken back.
 */
module JsonStreaming {
  import opened Base
  import opened JsonMachine
  import opened JsonShape
  import opened JsonCompletion
  import opened JsonErrorLocator
  import opened JsonHealing
  import opened JsonParse
  import opened JsonDump
  import opened JsonPartialResults
  import opened JsonCleaning
  import opened JsonValues
  import opened JsonHealedValues
  import opened JsonPartialValues
  import opened JsonConsume
  import opened JsonGrowth
  import opened JsonReadingOn

  // ----- the stop behind a lead

  /** The stop behind a backslash, whose escape the healing goes on with. */
  function SlashStop(st: State, b: Build): Stop
    requires b.frames != [] && st.mode.Text?
  {
    Stop(b.frames, st.mode.key, Unescaped(WholeElements(b.token, st.mode.part)) + "\\", "\\")
  }

  predicate BehindSlash(mode: Mode) {
    mode.Text? && mode.part.Backslash?
  }

  /** The stop of a marker behind a lead. */
  function MarkerStop(r: Reader, lead: string): Stop
    requires InString(r)
  {
    Stop(r.b.frames, r.st.mode.key, Unescaped(r.b.token), lead)
  }

  lemma QuoteStop(show: string -> string, r: Reader, next: Reader, q: string)
    requires Next(show, r, '"') == Some(next) && InString(next)
    requires TokenFits(r.st.mode, r.b.token, q) && NotInEscape(r.st.mode) && FitsTop(r.st.mode, r.st.stack)
    requires !BehindSlash(r.st.mode) && !r.st.mode.Number?
    ensures BetweenTokens(r.st) && !r.st.mode.Colon? && !r.st.mode.After?
    ensures next.b.frames == r.b.frames && (next.st.mode.key <==> r.st.mode.ObjectFirst? || r.st.mode.ObjectKey?)
    ensures Unescaped(next.b.token) == ""
  {
    QuoteInto(show, r, next, q);
    NothingUnescaped();
  }

  lemma SlashStopIs(show: string -> string, r: Reader, next: Reader, q: string)
    requires Next(show, r, '\\') == Some(next) && InString(next) && r.b.frames == next.b.frames
    requires TokenFits(r.st.mode, r.b.token, q) && NotInEscape(r.st.mode)
    ensures BehindSlash(r.st.mode) && MarkerStop(next, "\\") == SlashStop(r.st, r.b)
  {
    BackslashInto(show, r, next, q);
    hide Next, Unescaped, WellEscaped;
    var t := r.b.token[..|r.b.token| - 1];
    assert r.b.token + ['\\'] == t + ['\\', '\\'];
    UnescapedJoin(t, ['\\', '\\']);
    PairUnescaped('\\');
    assert [Meaning('\\')] == "\\";
    SlashKey(show, r, next);
  }

  lemma SlashKey(show: string -> string, r: Reader, next: Reader)
    requires Next(show, r, '\\') == Some(next) && r.st.mode.Text? && next.st.mode.Text?
    ensures next.st.mode.key == r.st.mode.key
  {
  }

  lemma ColonFrom(show: string -> string, r: Reader, m: Reader)
    requires Next(show, r, ':') == Some(m) && !m.st.mode.Text? && !r.st.mode.Number? && FitsTop(r.st.mode, r.st.stack)
    ensures r.st.mode.Colon? && m.b == r.b
  {
  }

  lemma CommaFrom(show: string -> string, r: Reader, m: Reader)
    requires Next(show, r, ',') == Some(m) && !m.st.mode.Text? && !r.st.mode.Number? && FitsTop(r.st.mode, r.st.stack)
    ensures r.st.mode.After? && m.b == r.b && m.st.stack == r.st.stack
  {
  }

  lemma PlainStep(show: string -> string, q: string, x: char, marker: string)
    requires Live(q + [x]) && Fresh(show, q, marker) && !IsDigit(x) && x != 'u'
    ensures Live(q) && Fresh(show, q + [x], marker) && Next(show, ReaderOf(show, q), x) == Some(ReaderOf(show, q + [x]))
  {
    hide Contains, DigitMarker, Live, NoUnicodeEscapes, Quiet, ReaderOf, Next;
    ReaderNext(show, q, x);
    PlainAdds(q, x, marker);
    QuietSnoc(show, q, x, marker);
  }

  lemma OneLeadStop(show: string -> string, q: string, marker: string)
    requires Live(q + ['"']) && Fresh(show, q, marker) && InString(ReaderOf(show, q + ['"']))
    requires Live(q) && var mode := ReaderOf(show, q).st.mode; !BehindSlash(mode) && !mode.Number?
    ensures var r := ReaderOf(show, q);
            r.b.frames != [] && MarkerStop(ReaderOf(show, q + ['"']), "\"") == StopOf(r.st, r.b)
  {
    hide Contains, DigitMarker, NoUnicodeEscapes, Quiet, ReaderOf, Next, Inside, Counts, FitsTop, TokenFits,
      NotInEscape, Unescaped;
    PlainStep(show, q, '"', marker);
    ReaderInside(show, q, marker);
    ReaderFits(show, q, marker);
    QuoteStop(show, ReaderOf(show, q), ReaderOf(show, q + ['"']), q);
  }

  lemma ReaderFits(show: string -> string, q: string, marker: string)
    requires Live(q) && Fresh(show, q, marker)
    ensures var r := ReaderOf(show, q); FitsTop(r.st.mode, r.st.stack)
  {
    hide Contains, DigitMarker, NoUnicodeEscapes, Quiet, ReaderOf, FitsTop, Tracks;
    ReaderFacts(show, q, marker);
  }

  lemma TwoLeadStop(show: string -> string, q: string, x: char, marker: string)
    requires Live(q + [x] + ['"']) && Fresh(show, q, marker) && (x == ':' || x == ',')
    requires InString(ReaderOf(show, q + [x] + ['"']))
    requires Live(q) && !ReaderOf(show, q).st.mode.Number?
    ensures var r := ReaderOf(show, q);
            && r.b.frames != [] && (x == ':' ==> r.st.mode.Colon?) && (x == ',' ==> r.st.mode.After?)
            && MarkerStop(ReaderOf(show, q + [x] + ['"']), [x] + ['"']) == StopOf(r.st, r.b)
  {
    hide Contains, DigitMarker, NoUnicodeEscapes, Quiet, ReaderOf, Next, Inside, Counts, FitsTop, TokenFits,
      NotInEscape, Unescaped, Live, Fresh, FilledWhere, AllUnseen;
    ReaderNext(show, q + [x], '"');
    PlainStep(show, q, x, marker);
    ReaderInside(show, q, marker);
    ReaderInside(show, q + [x], marker);
    ReaderFits(show, q, marker);
    ReaderFits(show, q + [x], marker);
    var r, m, r1 := ReaderOf(show, q), ReaderOf(show, q + [x]), ReaderOf(show, q + [x] + ['"']);
    NoQuoteAfter(show, r, x, m);
    QuoteInto(show, m, r1, q + [x]);
    NothingUnescaped();
    LastKind(r1.b.frames);
    assert ":\"" == [':'] + ['"'] && ",\"" == [','] + ['"'];
    if x == ':' {
      ColonFrom(show, r, m);
      ColonInto(show, r, m);
    } else {
      CommaFrom(show, r, m);
      CommaInto(show, r, m);
    }
  }

  /** Behind whatever lead the marker was put, it is where the text stopped. */
  lemma LeadStop(show: string -> string, q: string, lead: string, marker: string)
    requires Live(q + lead) && Fresh(show, q, marker) && IsLead(lead)
    requires InString(ReaderOf(show, q + lead))
    requires Live(q) && !ReaderOf(show, q).st.mode.Number?
    requires BehindSlash(ReaderOf(show, q).st.mode) ==> lead == "\\"
    ensures var r := ReaderOf(show, q);
            && r.b.frames != []
            && MarkerStop(ReaderOf(show, q + lead), lead)
               == if BehindSlash(r.st.mode) then SlashStop(r.st, r.b) else StopOf(r.st, r.b)
  {
    hide Fresh, ReaderOf, Live, Unescaped, IsLead;
    LeadForms(lead);
    if lead == "" {
      assert q + lead == q;
    } else if lead == "\"" {
      assert lead == ['"'];
      OneLeadStop(show, q, marker);
    } else if lead == "\\" {
      assert lead == ['\\'];
      SlashLeadStop(show, q, marker);
    } else {
      var x := lead[0];
      assert lead == [x] + ['"'] && q + lead == q + [x] + ['"'];
      TwoLeadStop(show, q, x, marker);
    }
  }

  lemma LeadForms(lead: string)
    requires IsLead(lead)
    ensures lead == "" || lead == "\"" || lead == "\\" || lead == ":\"" || lead == ",\""
  {
  }

  lemma SlashLeadStop(show: string -> string, q: string, marker: string)
    requires Live(q + ['\\']) && Fresh(show, q, marker) && Live(q)
    requires InString(ReaderOf(show, q + ['\\']))
    ensures var r := ReaderOf(show, q);
            && r.b.frames != [] && BehindSlash(r.st.mode)
            && MarkerStop(ReaderOf(show, q + ['\\']), "\\") == SlashStop(r.st, r.b)
  {
    hide Contains, DigitMarker, NoUnicodeEscapes, Quiet, ReaderOf, Inside, Counts, FitsTop, TokenFits, NotInEscape,
      Unescaped;
    PlainStep(show, q, '\\', marker);
    ReaderInside(show, q, marker);
    var r, next := ReaderOf(show, q), ReaderOf(show, q + ['\\']);
    BackslashInto(show, r, next, q);
    SlashStopIs(show, r, next, q);
  }

  // ----- a reply that has stopped

  /** The part of a text whose containers are delivered: all of it, unless healing cuts it back. */
  function CutOf(s: string): (q: string)
    requires Open(s)
    ensures q <= s
  {
    var p := LastIndexOf(s, Openers(Top(StateOf(s).stack)));
    if NeedsCut(s) && p.Some? then s[..p.value + 1] else s
  }

  /** Where that part stops. */
  ghost predicate StopsInside(show: string -> string, s: string) {
    Open(s) && Live(CutOf(s)) && ReaderOf(show, CutOf(s)).b.frames != [] && !ReaderOf(show, CutOf(s)).st.mode.Number?
  }

  ghost function StopAt(show: string -> string, s: string): Stop
    requires StopsInside(show, s)
  {
    var r := ReaderOf(show, CutOf(s));
    if BehindSlash(r.st.mode) then SlashStop(r.st, r.b) else StopOf(r.st, r.b)
  }

  function Given(v: Option<Json>, end: nat): Consumption {
    match v
    case None => Throws
    case Some(j) => Consumed(j, true, end)
  }

  lemma CutPart(show: string -> string, s: string, marker: string, healing: Healing)
    requires Open(s) && HealedRight(s, Top(StateOf(s).stack), marker, healing) && healing.Healed? && Accepts(healing.text)
    ensures healing.kept <= |s| ==> s[..healing.kept] == CutOf(s)
    ensures NeedsCut(s) ==>
              && Live(CutOf(s)) && AwaitsValue(StateOf(CutOf(s)).mode) && StateOf(CutOf(s)).stack == StateOf(s).stack
              && healing.dumpMarker == "\"" + marker
  {
    hide Accepts, Closing, LastIndexOf, MidElement;
    ShapeHolds(s);
    assert s[..|s|] == s;
    var st := StateOf(s);
    assert NeedsCut(s) && !MidElement(st) ==> Removable(s, st);
  }

  lemma LeadIs(healing: Healing, lead: string, marker: string)
    requires healing.Healed? && healing.dumpMarker == lead + marker
    ensures LeadOf(healing, marker) == lead
  {
    assert (lead + marker)[..|lead + marker| - |marker|] == lead;
  }

  lemma DigitsAreSafe(show: string -> string, s: string, marker: string)
    requires Fresh(show, s, marker)
    ensures StringSafe(marker) && marker != ""
  {
    DigitsSafe(marker);
  }

  /** The part that is kept does not stop inside a number, and behind a backslash the lead is a backslash. */
  lemma KeptPart(show: string -> string, s: string, marker: string)
    requires Open(s) && Fresh(show, s, marker) && Parsed(s, marker).Partial?
    ensures var out := Parsed(s, marker);
            && out.consumed == |s| && out.healing.Healed? && |marker| <= |out.healing.dumpMarker| && out.healing.kept <= |s|
            && s[..out.healing.kept] == CutOf(s) && Live(CutOf(s)) && !StateOf(CutOf(s)).mode.Number?
            && (BehindSlash(StateOf(CutOf(s)).mode) ==> LeadOf(out.healing, marker) == "\\")
            && (BehindSlash(StateOf(CutOf(s)).mode) ==> CutOf(s) == s)
  {
    hide Accepts, FinalElements, Containers, Contains, DigitMarker, HealedRight, IsLead, LastIndexOf, LeadOf,
      NoUnicodeEscapes, Parsed, Quiet, Run, Step, TailOf;
    var healing := Parsed(s, marker).healing;
    DigitsAreSafe(show, s, marker);
    PartialParts(show, s, marker);
    PartialHealing(s, marker);
    CutPart(show, s, marker, healing);
    var mode := StateOf(CutOf(s)).mode;
    if BehindSlash(mode) && !NeedsCut(s) {
      LeadIs(healing, "\\", marker);
    }
  }

  /** What is delivered of a text that stopped in an open container is what is there where it stopped. */
  lemma StopDelivers(show: string -> string, s: string, marker: string, paths: Paths)
    requires Open(s) && Fresh(show, s, marker) && Parsed(s, marker).Partial?
    ensures StopsInside(show, s) && Formed(StopAt(show, s))
    ensures Outcomes(show, s, marker, true, paths) == Given(DeliveredAt(paths, marker, StopAt(show, s), []), |s|)
  {
    hide Accepts, BehindSlash, Contains, Delivers, DigitMarker, Fresh, HasMarker, HoleFits, IsLead, LeadOf, Live,
      NeedsCut, NoUnicodeEscapes, Outcomes, Parsed, Quiet, ReaderOf, StateOf, StopOf, Unescaped, LastIndexOf, Openers;
    var healing := Parsed(s, marker).healing;
    KeptPart(show, s, marker);
    var q, lead := CutOf(s), LeadOf(healing, marker);
    PartialIsCleaned(show, s, marker, paths);
    PartialParts(show, s, marker);
    ReaderState(show, q);
    LeadStop(show, q, lead, marker);
  }

  lemma ReaderState(show: string -> string, q: string)
    requires Live(q)
    ensures ReaderOf(show, q).st == StateOf(q)
  {
    hide Read, Run;
    ReadState(show, BEGIN, q);
  }

  // ----- what a cut gives up

  /** A value is awaited, or one that healing cuts off has begun. */
  predicate Waits(mode: Mode) {
    AwaitsValue(mode) || mode.Number? || mode.Literal?
  }

  lemma WaitingFrames(show: string -> string, r: Reader, x: char, next: Reader)
    requires Next(show, r, x) == Some(next) && FitsTop(r.st.mode, r.st.stack) && next.st.stack != []
    requires Waits(r.st.mode) && Waits(next.st.mode) && r.st.stack == next.st.stack && x !in Openers(Top(next.st.stack))
    ensures next.b.frames == r.b.frames
  {
    hide Put, Unescaped;
    match r.st.mode
    case Number(number) =>
      if NumberStep(number, x).None? {
        AfterNeverWaits(r.st.(mode := After), x, next.st);
      }
    case Literal(_) =>
    case _ => OpenedElsewhere(r.st, x, next.st);
  }

  lemma AfterNeverWaits(st: State, x: char, next: State)
    requires st.mode.After? && Between(st, x) == Some(next) && next.stack != [] && Waits(next.mode)
    ensures x in Openers(Top(next.stack))
  {
  }

  lemma OpenedElsewhere(st: State, x: char, next: State)
    requires AwaitsValue(st.mode) && Between(st, x) == Some(next) && st.stack == next.stack
    ensures x !in "{[}]"
  {
    assert x == '{' || x == '[' ==> |next.stack| == |st.stack| + 1;
    assert x == '}' || x == ']' ==> |next.stack| < |st.stack|;
  }

  /** Cutting back to the last opener leaves the containers as they are, while no value has been added. */
  lemma {:induction false} SameAtCut(show: string -> string, s: string)
    requires Open(s) && Waits(StateOf(s).mode)
    ensures var p := LastIndexOf(s, Openers(Top(StateOf(s).stack)));
            && p.Some? && Live(s[..p.value + 1]) && AwaitsValue(StateOf(s[..p.value + 1]).mode)
            && ReaderOf(show, s[..p.value + 1]).b.frames == ReaderOf(show, s).b.frames
    decreases |s|
  {
    hide LastIndexOf, Next, Openers, ReaderOf, Run, Step;
    NothingOpen(s);
    var front, x := s[..|s| - 1], s[|s| - 1];
    assert s == front + [x] && s[..|s|] == s;
    LivePrefix(s, |front|);
    RunSnoc(START, front, x);
    ShapeHolds(front);
    var st, next := StateOf(front), StateOf(s);
    ValueUnderWay(st, x, next);
    LastIndexSnoc(front, x, Openers(Top(next.stack)));
    if x !in Openers(Top(next.stack)) {
      ReaderNext(show, front, x);
      ReaderState(show, front);
      ReaderState(show, s);
      WaitingFrames(show, ReaderOf(show, front), x, ReaderOf(show, s));
      SameAtCut(show, front);
      var n := LastIndexOf(front, Openers(Top(next.stack))).value + 1;
      assert s[..n] == front[..n];
    }
  }

  lemma NothingOpen(s: string)
    requires Open(s)
    ensures s != ""
  {
  }

  /** A text in front of what healing cuts off: it has the same containers as the part that is kept. */
  function Trunk(e: string): (q: string)
    requires Live(e)
    ensures q <= e
  {
    if Open(e) && StateOf(e).mode.After? && NeedsCut(e) && e != "" then e[..|e| - 1] else e
  }

  /** Behind `true` or `false`, without their last letter: still in the literal. */
  lemma LiteralTrunk(e: string)
    requires Open(e) && StateOf(e).mode.After? && EndsWith(e, "e")
    ensures var front := e[..|e| - 1];
            && Open(front) && StateOf(front).mode.Literal? && StateOf(front).stack == StateOf(e).stack
            && LastIndexOf(e, Openers(Top(StateOf(e).stack))) == LastIndexOf(front, Openers(Top(StateOf(e).stack)))
  {
    hide Run, LastIndexOf;
    var front, x := e[..|e| - 1], e[|e| - 1];
    assert e == front + [x];
    LivePrefix(e, |front|);
    RunSnoc(START, front, x);
    LetterE(StateOf(front), x, StateOf(e));
    LastIndexSnoc(front, x, Openers(Top(StateOf(e).stack)));
  }

  lemma LetterE(st: State, x: char, next: State)
    requires Step(st, x) == Some(next) && x in "e" && next.mode.After?
    ensures st.mode.Literal? && next.stack == st.stack
  {
  }

  /** What is delivered of the part that is kept is what is delivered of the trunk. */
  lemma TrunkDelivers(show: string -> string, p: Paths, marker: string, e: string)
    requires Open(e) && NeedsCut(e) && !MidElement(StateOf(e)) && Fresh(show, e, marker)
    requires StopsInside(show, e) && Formed(StopAt(show, e))
    ensures Open(Trunk(e)) && Waits(StateOf(Trunk(e)).mode)
    ensures DeliveredAt(p, marker, StopAt(show, e), []) == ShownAt(show, p, marker, Trunk(e))
  {
    hide Live, StateOf, LastIndexOf, Openers, ReaderOf, Delivers, Fresh, HoleFits;
    assert e[..|e|] == e;
    if StateOf(e).mode.After? {
      LiteralTrunk(e);
    }
    var t := Trunk(e);
    SameAtCut(show, t);
    var n := LastIndexOf(t, Openers(Top(StateOf(t).stack))).value + 1;
    assert e[..n] == t[..n];
    ReaderState(show, t);
    ReaderState(show, CutOf(e));
    SameWaiting(ReaderOf(show, CutOf(e)), ReaderOf(show, t));
  }

  lemma SameWaiting(r: Reader, t: Reader)
    requires r.b.frames == t.b.frames != [] && Waits(r.st.mode) && Waits(t.st.mode)
    ensures StopOf(r.st, r.b) == StopOf(t.st, t.b) && !BehindSlash(r.st.mode)
  {
  }

  // ----- behind a backslash

  lemma StopsGrow(p: Paths, marker: string, s: Stop, t: Stop)
    requires s.fs == t.fs && Placed(s, marker) && Placed(t, marker) && Steady(marker) && Apart(p) && s.fs != []
    requires TipAdvances(p, s.fs[|s.fs| - 1], s, s.fs[|s.fs| - 1], t)
    ensures Formed(s) && Formed(t) && Grows(p, DeliveredAt(p, marker, s, []), DeliveredAt(p, marker, t, []), [])
  {
    hide DeliveredAt, Grows, Placed, Stem, Unbordered, DigitMarker;
    var front, f := s.fs[..|s.fs| - 1], s.fs[|s.fs| - 1];
    var s', t' := s.(fs := [f]), t.(fs := [f]);
    SplitLast(s.fs);
    assert s == s'.(fs := front + [f]) && t == t'.(fs := front + [f]);
    PlacedLocal(front, s', marker);
    PlacedLocal(front, t', marker);
    SameItself(f);
    forall inner: Path
      ensures Further(p, marker, s', t', inner)
    {
      TipGrows(p, marker, f, f, s', t', inner);
    }
    LocalStep(p, marker, front, s', t');
  }

  lemma SlashEscaped(text: string)
    ensures EscapeAll(text + "\\") == EscapeAll(text) + "\\\\"
  {
    hide EscapeAll;
    assert "\\" == ['\\'];
    EscapeAppend(text, "\\");
    EscapeOne('\\');
  }

  lemma SlashStem(f: Frame, key: bool, text: string)
    requires HoleFits([f], key)
    ensures Stem(Single(f, key, text + "\\", "\\")) == (if key then HeadText(f) else FrameText(f)) + "\"" + EscapeAll(text) + "\\"
  {
    hide HeadText, FrameText, EscapeAll, HoleFits, Dumped, Stem;
    SingleText(f, key, text + "\\");
    SlashEscaped(text);
    var a := (if key then HeadText(f) else FrameText(f)) + "\"" + EscapeAll(text);
    assert "\\\\" == "\\" + "\\";
    assert (if key then HeadText(f) else FrameText(f)) + "\"" + (EscapeAll(text) + "\\\\") == a + "\\" + "\\";
    StemIs(Single(f, key, text + "\\", "\\"), a + "\\");
  }

  lemma MeaningEscaped(c: char)
    requires c in "\"\\bfnrt"
    ensures var e := Escape(Meaning(c)); e != "" && e[0] == '\\'
  {
  }

  lemma SlashAdvances(p: Paths, f: Frame, s: Stop, t: Stop, text: string, c: char)
    requires HoleFits([f], s.key) && s.key == t.key && s.lead == "\\" && t.lead == "" && c in "\"\\bfnrt"
    requires s.text == text + "\\" && t.text == text + [Meaning(c)]
    ensures TipAdvances(p, f, s, f, t)
  {
    hide Stem, FrameText, HeadText, EscapeAll, Meaning;
    SlashStem(f, s.key, text);
    TextStem(f, t.key, t.text);
    EscapeAppend(text, [Meaning(c)]);
    EscapeOne(Meaning(c));
    MeaningEscaped(c);
    var e := Escape(Meaning(c));
    var a := (if s.key then HeadText(f) else FrameText(f)) + "\"" + EscapeAll(text);
    assert "\\" <= e;
    PrefixBehind(a, "\\", e);
    assert a + e == (if s.key then HeadText(f) else FrameText(f)) + "\"" + (EscapeAll(text) + e);
  }

  lemma SlashBegins(p: Paths, f: Frame, s: Stop, t: Stop)
    requires HoleFits([f], s.key) && s.key == t.key && s.lead == "" && t.lead == "\\" && t.text == s.text + "\\" && p.contents == []
    ensures TipAdvances(p, f, s, f, t)
  {
    hide Stem, FrameText, HeadText, EscapeAll;
    SlashStem(f, s.key, s.text);
    TextStem(f, s.key, s.text);
    PrefixOfMore((if s.key then HeadText(f) else FrameText(f)) + "\"" + EscapeAll(s.text), "\\");
  }

  lemma SlashGoesOn(st: State)
    requires BehindSlash(st.mode)
    ensures Step(st, '\\') == Some(State(Text(st.mode.key, Plain), st.stack))
  {
  }

  /** The stop behind a backslash, as a place for the marker. */
  lemma SlashPlaced(show: string -> string, s: string, marker: string)
    requires Live(s) && Fresh(show, s, marker) && BehindSlash(StateOf(s).mode) && ReaderOf(show, s).b.frames != []
    ensures var r := ReaderOf(show, s);
            && r.st == StateOf(s) && Placed(SlashStop(r.st, r.b), marker) && Placed(StopOf(r.st, r.b), marker)
            && TokenFits(r.st.mode, r.b.token, s) && NotInEscape(r.st.mode) && HoleFits([r.b.frames[|r.b.frames| - 1]], r.st.mode.key)
  {
    hide Clear, Contains, Counts, DigitMarker, Live, Next, NoUnicodeEscapes, NotInEscape, Quiet, ReaderOf, Step,
      Suffix, TokenFits, Unescaped, Unseen, Before, EscapeAll, FilledWhere, FitsTop, Kinds;
    var r := ReaderOf(show, s);
    ReaderInside(show, s, marker);
    InsidePlaced(r.st, r.b, marker);
    ReaderState(show, s);
    SlashGoesOn(StateOf(s));
    GoesOn(s, '\\');
    PlainStep(show, s, '\\', marker);
    var next := ReaderOf(show, s + ['\\']);
    ReaderState(show, s + ['\\']);
    SlashFrames(show, r, next);
    ReaderInside(show, s + ['\\'], marker);
    InsidePlaced(next.st, next.b, marker);
    LeadBackslash(show, r, next, s);
    SlashStopIs(show, r, next, s);
    LastFits(r.b.frames, r.st.mode.key);
  }

  lemma LastFits(fs: seq<Frame>, key: bool)
    requires fs != [] && HoleFits(fs, key)
    ensures HoleFits([fs[|fs| - 1]], key)
  {
  }

  lemma GoesOn(s: string, c: char)
    requires Live(s) && Step(StateOf(s), c).Some?
    ensures Live(s + [c]) && StateOf(s + [c]) == Step(StateOf(s), c).value
  {
    RunSnoc(START, s, c);
  }

  lemma SlashFrames(show: string -> string, r: Reader, next: Reader)
    requires BehindSlash(r.st.mode) && Next(show, r, '\\') == Some(next)
    ensures next.b.frames == r.b.frames && next.st.mode == Text(r.st.mode.key, Plain)
  {
  }

  /** The escape that was begun goes on: what was delivered does, unless a slash follows, which is dumped without a backslash. */
  lemma SlashAhead(show: string -> string, p: Paths, marker: string, s: string, c: char)
    requires Live(s) && Live(s + [c]) && Fresh(show, s, marker) && Fresh(show, s + [c], marker)
    requires Steady(marker) && Apart(p) && c != '/'
    requires BehindSlash(StateOf(s).mode) && ReaderOf(show, s).b.frames != [] && BehindSlash(ReaderOf(show, s).st.mode)
    ensures var r := ReaderOf(show, s);
            && Formed(SlashStop(r.st, r.b))
            && Grows(p, DeliveredAt(p, marker, SlashStop(r.st, r.b), []), ShownAt(show, p, marker, s + [c]), [])
  {
    hide DeliveredAt, Contains, Counts, DigitMarker, Grows, HoleFits, Live, Next, NoUnicodeEscapes, NotInEscape,
      Placed, Quiet, ReaderOf, Steady, TokenFits, TipAdvances, Unescaped, Meaning;
    var r, next := ReaderOf(show, s), ReaderOf(show, s + [c]);
    SlashPlaced(show, s, marker);
    ReaderNext(show, s, c);
    FreshParts(show, s + [c], marker);
    EscapeNext(show, r, s, c, next);
    ReaderInside(show, s + [c], marker);
    InsidePlaced(next.st, next.b, marker);
    var f := r.b.frames[|r.b.frames| - 1];
    SlashAdvances(p, f, SlashStop(r.st, r.b), StopOf(next.st, next.b), Unescaped(WholeElements(r.b.token, r.st.mode.part)), c);
    StopsGrow(p, marker, SlashStop(r.st, r.b), StopOf(next.st, next.b));
  }

  lemma EscapeNext(show: string -> string, r: Reader, q: string, c: char, next: Reader)
    requires BehindSlash(r.st.mode) && Next(show, r, c) == Some(next) && TokenFits(r.st.mode, r.b.token, q) && NotInEscape(r.st.mode)
    requires NoUnicodeEscapes(q + [c]) && r.b.frames != []
    ensures c in "\"\\/bfnrt" && next.b.frames == r.b.frames
    ensures StopOf(next.st, next.b)
            == Stop(r.b.frames, r.st.mode.key, Unescaped(WholeElements(r.b.token, r.st.mode.part)) + [Meaning(c)], "")
  {
    TextNext(show, r, c, next);
    ElementsGrow(r.st.mode, r.b.token, q, c, next.st.mode);
    hide Next, Unescaped, Meaning, TokenFits, NotInEscape, NoUnicodeEscapes;
  }

  lemma SlashBack(show: string -> string, p: Paths, marker: string, s: string)
    requires Live(s) && Fresh(show, s, marker) && Steady(marker) && Apart(p) && p.contents == []
    requires BehindSlash(StateOf(s).mode) && ReaderOf(show, s).b.frames != [] && BehindSlash(ReaderOf(show, s).st.mode)
    ensures var r := ReaderOf(show, s);
            && Formed(SlashStop(r.st, r.b))
            && Grows(p, ShownAt(show, p, marker, s), DeliveredAt(p, marker, SlashStop(r.st, r.b), []), [])
  {
    hide DeliveredAt, Contains, DigitMarker, Grows, HoleFits, Live, NoUnicodeEscapes, NotInEscape, Placed, Quiet,
      ReaderOf, Steady, TokenFits, TipAdvances, Unescaped;
    var r := ReaderOf(show, s);
    SlashPlaced(show, s, marker);
    SlashBegins(p, r.b.frames[|r.b.frames| - 1], StopOf(r.st, r.b), SlashStop(r.st, r.b));
    StopsGrow(p, marker, StopOf(r.st, r.b), SlashStop(r.st, r.b));
  }

  // ----- a partial reply and what may become of it

  /** The reply stopped behind a backslash, and a slash follows. */
  predicate SlashFollows(s: string, e: string)
    requires Live(s)
  {
    BehindSlash(StateOf(s).mode) && |s| < |e| && e[|s|] == '/'
  }

  /** The reply stopped where healing gives back all that was read: between characters, and behind no backslash in content. */
  predicate StopsBetween(e: string, paths: Paths)
    requires Live(e)
  {
    !MidElement(StateOf(e)) && (paths.contents != [] ==> !BehindSlash(StateOf(e).mode))
  }

  lemma Ahead(show: string -> string, p: Paths, marker: string, s: string, e: string)
    requires s <= e && Open(s) && Live(e) && Fresh(show, e, marker) && Unbordered(marker) && Apart(p) && Parsed(s, marker).Partial?
    requires BehindSlash(StateOf(s).mode) ==> |s| < |e| && e[|s|] != '/'
    requires StopsInside(show, s) && Formed(StopAt(show, s))
    ensures Grows(p, DeliveredAt(p, marker, StopAt(show, s), []), ShownAt(show, p, marker, e), [])
  {
    hide DeliveredAt, CutOf, DigitMarker, Contains, NoUnicodeEscapes, Quiet, Grows, HoleFits, Live, Parsed, ReaderOf,
      Unbordered, BehindSlash, StateOf;
    assert e[..|s|] == s;
    FreshPrefix(show, e, marker, |s|);
    KeptPart(show, s, marker);
    var q := CutOf(s);
    var r := ReaderOf(show, q);
    ReaderState(show, q);
    if BehindSlash(r.st.mode) {
      var x := e[|s|];
      assert e[..|s| + 1] == s + [x];
      LivePrefix(e, |s| + 1);
      FreshPrefix(show, e, marker, |s| + 1);
      SlashAhead(show, p, marker, s, x);
      ReaderNext(show, s, x);
      SlashBegun(show, r, x, ReaderOf(show, s + [x]));
      TextGrows(show, p, marker, s + [x], e);
      GrowsThrough(p, DeliveredAt(p, marker, StopAt(show, s), []), ShownAt(show, p, marker, s + [x]), ShownAt(show, p, marker, e), []);
    } else {
      TextGrows(show, p, marker, q, e);
    }
  }

  lemma SlashBegun(show: string -> string, r: Reader, x: char, next: Reader)
    requires BehindSlash(r.st.mode) && r.b.frames != [] && Next(show, r, x) == Some(next)
    ensures Begun(next)
  {
    TextNext(show, r, x, next);
  }

  /** What healing gives back of a reply is no less than what has been read of it, without a literal that is cut off. */
  lemma GivesBack(show: string -> string, p: Paths, marker: string, e: string)
    requires Open(e) && Fresh(show, e, marker) && Unbordered(marker) && Apart(p) && Parsed(e, marker).Partial? && StopsBetween(e, p)
    requires StopsInside(show, e) && Formed(StopAt(show, e))
    ensures Live(Trunk(e)) && Grows(p, ShownAt(show, p, marker, Trunk(e)), DeliveredAt(p, marker, StopAt(show, e), []), [])
  {
    hide DeliveredAt, DigitMarker, Contains, NoUnicodeEscapes, Quiet, Grows, HoleFits, Live, Parsed, ReaderOf,
      Unbordered, StateOf;
    ReaderState(show, CutOf(e));
    if NeedsCut(e) {
      TrunkDelivers(show, p, marker, e);
      GrowsItself(p, DeliveredAt(p, marker, StopAt(show, e), []), []);
    } else if BehindSlash(StateOf(e).mode) {
      SlashBack(show, p, marker, e);
    } else {
      GrowsItself(p, DeliveredAt(p, marker, StopAt(show, e), []), []);
    }
  }

  /** A reply whose outermost container has been closed. */
  lemma WholeShown(show: string -> string, p: Paths, marker: string, e: string)
    requires Live(e) && !Open(e) && Begun(ReaderOf(show, e)) && Fresh(show, e, marker)
    ensures Accepts(e) && ShownAt(show, p, marker, e) == Final(p, ValueOf(show, e), [])
  {
    hide Read, Contains, DigitMarker, NoUnicodeEscapes, Quiet, Counts, Inside, Final, NotInEscape;
    ReaderInside(show, e, marker);
    KindsMeet(ReaderOf(show, e).b.frames);
    ReaderValue(show, e);
  }

  /** What was delivered earlier goes on in what is delivered later, which is a value or an exception. */
  predicate Becomes(p: Paths, a: Option<Json>, b: Consumption) {
    && (b.Throws? || b.Consumed?)
    && (a.None? ==> b.Throws?)
    && (a.Some? && b.Consumed? ==> Streams(p, a.value, b.value, []))
  }

  lemma WholeGiven(paths: Paths, j: Json, end: nat, a: Option<Json>)
    requires paths.args != [] && Grows(paths, a, Final(paths, j, []), []) && ([] !in paths.args && [] in paths.contents ==> a.None?)
    ensures Becomes(paths, a, WholeDelivered(paths, j, end))
  {
    hide Streams, Dump, ItemsDumpedAt, MembersDumpedAt, ItemsMisplaced, MembersMisplaced;
  }

  lemma PartialGiven(paths: Paths, a: Option<Json>, b: Option<Json>, end: nat)
    requires Grows(paths, a, b, [])
    ensures Becomes(paths, a, Given(b, end))
  {
    hide Streams;
  }

  lemma NoneAtContent(p: Paths, marker: string, s: Stop)
    requires Formed(s) && [] !in p.args && [] in p.contents
    ensures DeliveredAt(p, marker, s, []) == None
  {
  }

  /** The trunk of a longer text goes beyond a text that stopped behind a backslash. */
  lemma TrunkBehind(s: string, e: string)
    requires s <= e && s != e && Open(s) && Live(e)
    ensures s <= Trunk(e) && Trunk(e) <= e
    ensures BehindSlash(StateOf(s).mode) ==> |s| < |Trunk(e)| && Trunk(e)[|s|] == e[|s|]
  {
    hide Run;
    var t := Trunk(e);
    assert t == e[..|t|] && s == e[..|s|];
    if Open(e) && StateOf(e).mode.After? && NeedsCut(e) {
      LiteralTrunk(e);
      assert |s| == |t| ==> s == t;
    }
  }

  /** A text that stopped between characters is healed. */
  lemma HealableIsPartial(e: string, marker: string)
    requires Open(e) && (!MidElement(StateOf(e)) || Healable(e)) && StringSafe(marker) && marker != ""
    ensures Parsed(e, marker).Partial?
  {
    hide Accepts, Parsed, StateOf, CutLands, MidElement;
    OpenNotAccepted(e);
    OpenIsHealed(e, marker);
  }

  lemma OpenNotAccepted(e: string)
    requires Open(e)
    ensures !Accepts(e)
  {
  }

  /** From what has been read, without a literal that is cut off, to what is delivered. */
  lemma Later(show: string -> string, a: Option<Json>, e: string, marker: string, paths: Paths, isPartial: bool)
    requires Live(e) && Fresh(show, e, marker) && Unbordered(marker) && Apart(paths) && Begun(ReaderOf(show, e))
    requires Live(Trunk(e)) && Grows(paths, a, ShownAt(show, paths, marker, Trunk(e)), [])
    requires Open(e) ==> isPartial && StopsBetween(e, paths)
    requires !Open(e) ==> paths.args != [] && ([] !in paths.args && [] in paths.contents ==> a.None?)
    ensures Becomes(paths, a, Outcomes(show, e, marker, isPartial, paths))
  {
    hide Accepts, DeliveredAt, Becomes, Contains, CutOf, DigitMarker, Final, Given, Grows, HoleFits, Live,
      NoUnicodeEscapes, Outcomes, Parsed, Quiet, ReaderOf, StateOf, StopAt, StopsInside, Unbordered, Formed, ValueOf,
      WholeDelivered, NeedsCut;
    if Open(e) {
      DigitsAreSafe(show, e, marker);
      HealableIsPartial(e, marker);
      StopDelivers(show, e, marker, paths);
      GivesBack(show, paths, marker, e);
      var b := DeliveredAt(paths, marker, StopAt(show, e), []);
      GrowsThrough(paths, a, ShownAt(show, paths, marker, Trunk(e)), b, []);
      PartialGiven(paths, a, b, |e|);
    } else {
      WholeShown(show, paths, marker, e);
      ParsedIsSound(e, marker);
      FreshHas(show, e, marker);
      PlainEscapesNone(e);
      WholeReply(show, e, marker, isPartial, paths);
      WholeGiven(paths, ValueOf(show, e), |e|, a);
    }
  }

  lemma SameMarkerStreams(show: string -> string, s: string, e: string, marker: string, paths: Paths, isPartial: bool)
    requires s <= e && Open(s) && Live(e) && Fresh(show, e, marker) && Unbordered(marker) && Apart(paths) && paths.args != []
    requires Parsed(s, marker).Partial? && !SlashFollows(s, e) && (Open(e) ==> isPartial && StopsBetween(e, paths))
    ensures var a, b := Outcomes(show, s, marker, true, paths), Outcomes(show, e, marker, isPartial, paths);
            && (a.Throws? || a.Consumed?) && (b.Throws? || b.Consumed?) && (a.Throws? ==> b.Throws?)
            && (a.Consumed? && b.Consumed? ==> Streams(paths, a.value, b.value, []))
  {
    hide DeliveredAt, Contains, CutOf, DigitMarker, Grows, HoleFits, Live, NoUnicodeEscapes, Outcomes, Parsed, Quiet,
      ReaderOf, StateOf, StopAt, StopsInside, Streams, Unbordered, Formed, NeedsCut, Trunk;
    assert e[..|s|] == s;
    FreshPrefix(show, e, marker, |s|);
    StopDelivers(show, s, marker, paths);
    var a := DeliveredAt(paths, marker, StopAt(show, s), []);
    if s == e {
      GrowsItself(paths, a, []);
      PartialGiven(paths, a, a, |s|);
    } else {
      TrunkBehind(s, e);
      assert e[..|Trunk(e)|] == Trunk(e);
      LivePrefix(e, |Trunk(e)|);
      FreshPrefix(show, e, marker, |Trunk(e)|);
      Ahead(show, paths, marker, s, Trunk(e));
      StartsBegun(show, s, e, marker, paths);
      if [] !in paths.args && [] in paths.contents {
        NoneAtContent(paths, marker, StopAt(show, s));
      }
      Later(show, a, e, marker, paths, isPartial);
    }
  }

  lemma StopPlaced(show: string -> string, s: string, marker: string)
    requires StopsInside(show, s) && Fresh(show, s, marker) && (BehindSlash(StateOf(CutOf(s)).mode) ==> CutOf(s) == s)
    ensures Placed(StopAt(show, s), marker)
  {
    hide Contains, CutOf, DigitMarker, Live, NoUnicodeEscapes, Placed, Quiet, ReaderOf, StateOf, Inside, BehindSlash, SlashStop, StopOf;
    var q := CutOf(s);
    assert q == s[..|q|];
    FreshPrefix(show, s, marker, |q|);
    ReaderState(show, q);
    ReaderInside(show, q, marker);
    if BehindSlash(StateOf(q).mode) {
      SlashPlaced(show, q, marker);
    } else {
      InsidePlaced(ReaderOf(show, q).st, ReaderOf(show, q).b, marker);
    }
  }

  /** What is delivered of a partial reply does not depend on the fresh marker that was drawn for it. */
  lemma AnyMarkerDelivers(show: string -> string, s: string, marker: string, other: string, paths: Paths)
    requires Open(s) && Fresh(show, s, marker) && Fresh(show, s, other) && Unbordered(marker) && Unbordered(other) && Apart(paths)
    ensures Parsed(s, marker).Partial? <==> Parsed(s, other).Partial?
    ensures Parsed(s, marker).Partial? ==> Outcomes(show, s, marker, true, paths) == Outcomes(show, s, other, true, paths)
  {
    hide Contains, CutOf, DeliveredAt, DigitMarker, Live, NoUnicodeEscapes, Outcomes, Parsed, Placed, Quiet, ReaderOf, StateOf, StopAt,
      StopsInside, Unbordered, BehindSlash, Healable, Accepts, Formed;
    DigitsAreSafe(show, s, marker);
    DigitsAreSafe(show, s, other);
    OpenNotAccepted(s);
    OpenIsHealed(s, marker);
    OpenIsHealed(s, other);
    if Parsed(s, marker).Partial? {
      StopDelivers(show, s, marker, paths);
      StopDelivers(show, s, other, paths);
      KeptPart(show, s, marker);
      StopPlaced(show, s, marker);
      StopPlaced(show, s, other);
      MarkerForgotten(paths, marker, other, StopAt(show, s), []);
    }
  }

  /**
   Arguments are not taken back: what is delivered of a partial reply stays in what is delivered of
   the reply with more of it, partial or whole, whatever fresh markers are drawn for them. Only what
   is last goes on: dumped arguments and content grow, and containers get more members and items.
   And a reply that throws goes on throwing.
   */
  lemma ArgumentsStream(
    show: string -> string, s: string, marker: string, e: string, other: string, paths: Paths, isPartial: bool)
    requires s <= e && Open(s) && Live(e) && Fresh(show, s, marker) && Fresh(show, e, other)
    requires Unbordered(marker) && Unbordered(other) && Apart(paths) && paths.args != []
    requires Parsed(s, marker).Partial? && !SlashFollows(s, e) && (Open(e) ==> isPartial && StopsBetween(e, paths))
    ensures var a, b := Outcomes(show, s, marker, true, paths), Outcomes(show, e, other, isPartial, paths);
            && (a.Throws? || a.Consumed?) && (b.Throws? || b.Consumed?) && (a.Throws? ==> b.Throws?)
            && (a.Consumed? && b.Consumed? ==> Streams(paths, a.value, b.value, []))
  {
    hide Contains, DigitMarker, Live, NoUnicodeEscapes, Outcomes, Parsed, Quiet, StateOf, Streams, Unbordered, NeedsCut, SlashFollows;
    assert e[..|s|] == s;
    FreshPrefix(show, e, other, |s|);
    AnyMarkerDelivers(show, s, marker, other, paths);
    SameMarkerStreams(show, s, e, other, paths, isPartial);
  }

  lemma FreshHas(show: string -> string, s: string, marker: string)
    requires Fresh(show, s, marker)
    ensures DigitMarker(marker) && !Contains(s, marker) && NoUnicodeEscapes(s)
  {
  }

  lemma StartsBegun(show: string -> string, s: string, e: string, marker: string, p: Paths)
    requires s <= e && Open(s) && Live(e) && Fresh(show, s, marker) && Fresh(show, e, marker) && Unbordered(marker) && Apart(p)
    requires Parsed(s, marker).Partial?
    ensures Begun(ReaderOf(show, e))
  {
    hide Contains, DigitMarker, Live, NoUnicodeEscapes, Parsed, Quiet, ReaderOf, StateOf, Unbordered, CutOf;
    StopDelivers(show, s, marker, p);
    TextGrows(show, p, marker, CutOf(s), e);
  }

  // ----- when arguments are taken back

  /** Two texts of the same length that differ do not begin the same text. */
  lemma NotBoth(a: string, b: string, d: string)
    requires |a| == |b| && a != b && b <= d
    ensures !(a <= d)
  {
  }

  lemma ArgumentsAre(p: Paths, marker: string, s: Stop)
    requires Placed(s, marker) && Steady(marker) && [] in p.args
    ensures DeliveredAt(p, marker, s, []) == Some(Str(Stem(s)))
  {
    hide Stem, Dumped, Trimmed, Placed, Steady;
    StemShown(s, marker);
  }

  lemma SlashShown(show: string -> string, p: Paths, marker: string, s: string)
    requires Live(s) && Live(s + ['/']) && Fresh(show, s, marker) && Fresh(show, s + ['/'], marker) && Steady(marker) && [] in p.args
    requires BehindSlash(StateOf(s).mode) && ReaderOf(show, s).b.frames != [] && BehindSlash(ReaderOf(show, s).st.mode)
    ensures var r := ReaderOf(show, s);
            && Formed(SlashStop(r.st, r.b))
            && var a, b := DeliveredAt(p, marker, SlashStop(r.st, r.b), []), ShownAt(show, p, marker, s + ['/']);
               && a.Some? && a.value.Str? && b.Some? && b.value.Str? && |a.value.s| == |b.value.s| && a.value.s != b.value.s
  {
    hide Contains, Counts, DigitMarker, HoleFits, Live, Next, NoUnicodeEscapes, NotInEscape, Placed, Quiet, ReaderOf,
      Steady, TokenFits, Unescaped, Stem, Dumped, Trimmed, Inside, Delivers, Tracks;
    var r, next := ReaderOf(show, s), ReaderOf(show, s + ['/']);
    SlashPlaced(show, s, marker);
    ReaderNext(show, s, '/');
    FreshParts(show, s + ['/'], marker);
    EscapeNext(show, r, s, '/', next);
    ReaderInside(show, s + ['/'], marker);
    InsidePlaced(next.st, next.b, marker);
    var a, b := SlashStop(r.st, r.b), StopOf(next.st, next.b);
    PlacedFormed(a, marker);
    PlacedFormed(b, marker);
    ArgumentsAre(p, marker, a);
    ArgumentsAre(p, marker, b);
    SlashStems(a, b, Unescaped(WholeElements(r.b.token, r.st.mode.part)));
  }

  lemma SlashStems(s: Stop, t: Stop, text: string)
    requires Formed(s) && t == Stop(s.fs, s.key, text + ['/'], "") && s.text == text + "\\" && s.lead == "\\"
    ensures |Stem(s)| == |Stem(t)| && Stem(s) != Stem(t)
  {
    hide Before, EscapeAll, HoleFits, Stem;
    var a := Before(s.fs, s.key) + "\"" + EscapeAll(text);
    SlashEscaped(text);
    EscapeAppend(text, ['/']);
    EscapeOne('/');
    assert "\\\\" == "\\" + "\\" && Escape('/') == "/";
    assert Before(s.fs, s.key) + "\"" + (EscapeAll(text) + "\\\\") == a + "\\" + "\\";
    StemIs(s, a + "\\");
    assert Before(s.fs, s.key) + "\"" + (EscapeAll(text) + "/") == a + "/" + "";
    StemIs(t, a + "/");
    assert (a + "\\")[|a|] != (a + "/")[|a|];
  }

  lemma SlashKept(show: string -> string, s: string, marker: string)
    requires Open(s) && StopsInside(show, s) && BehindSlash(StateOf(s).mode)
    ensures CutOf(s) == s && ReaderOf(show, s).b.frames != [] && BehindSlash(ReaderOf(show, s).st.mode)
    ensures var r := ReaderOf(show, s); StopAt(show, s) == SlashStop(r.st, r.b)
  {
    hide ReaderOf, Run, SlashStop;
    ReaderState(show, s);
  }

  lemma SlashTakesBack(show: string -> string, s: string, e: string, marker: string, paths: Paths, isPartial: bool)
    requires s <= e && Open(s) && Live(e) && Fresh(show, s, marker) && Fresh(show, e, marker) && Unbordered(marker) && Apart(paths)
    requires [] in paths.args && Parsed(s, marker).Partial? && (Open(e) ==> isPartial && StopsBetween(e, paths)) && SlashFollows(s, e)
    requires var b := Outcomes(show, e, marker, isPartial, paths); b.Consumed? && b.value.Str?
    ensures var a, b := Outcomes(show, s, marker, true, paths), Outcomes(show, e, marker, isPartial, paths);
            a.Consumed? && a.value.Str? && !(a.value.s <= b.value.s)
  {
    hide Accepts, DeliveredAt, Contains, DigitMarker, Dump, Grows, HoleFits, Live, NoUnicodeEscapes, Outcomes, Parsed,
      Quiet, ReaderOf, StateOf, Unbordered, Final, ValueOf, CutOf, StopsInside, NeedsCut, StopAt, Trunk, SlashStop,
      BehindSlash, Formed;
    var next := s + ['/'];
    assert next == e[..|s| + 1];
    LivePrefix(e, |next|);
    FreshPrefix(show, e, marker, |next|);
    StopDelivers(show, s, marker, paths);
    SlashKept(show, s, marker);
    SlashShown(show, paths, marker, s);
    ReaderNext(show, s, '/');
    SlashBegun(show, ReaderOf(show, s), '/', ReaderOf(show, next));
    SlashTrunk(s, e);
    assert e[..|Trunk(e)|] == Trunk(e);
    LivePrefix(e, |Trunk(e)|);
    FreshPrefix(show, e, marker, |Trunk(e)|);
    TextGrows(show, paths, marker, next, Trunk(e));
    StartsBegun(show, s, e, marker, paths);
    var a := ShownAt(show, paths, marker, next);
    Later(show, a, e, marker, paths, isPartial);
    NotBoth(Outcomes(show, s, marker, true, paths).value.s, a.value.s, Outcomes(show, e, marker, isPartial, paths).value.s);
  }

  lemma SlashTrunk(s: string, e: string)
    requires s <= e && Open(s) && Live(e) && SlashFollows(s, e)
    ensures s + ['/'] <= Trunk(e)
  {
    hide Live, StateOf, NeedsCut, Trunk, BehindSlash;
    TrunkBehind(s, e);
    assert s == Trunk(e)[..|s|];
  }

  lemma SameMarkerIff(show: string -> string, s: string, e: string, marker: string, paths: Paths, isPartial: bool)
    requires s <= e && Open(s) && Live(e) && Fresh(show, e, marker) && Unbordered(marker) && Apart(paths) && [] in paths.args
    requires Parsed(s, marker).Partial? && (Open(e) ==> isPartial && StopsBetween(e, paths))
    ensures var a, b := Outcomes(show, s, marker, true, paths), Outcomes(show, e, marker, isPartial, paths);
            && a.Consumed? && b.Consumed? && a.value.Str? && b.value.Str?
            && (a.value.s <= b.value.s <==> !SlashFollows(s, e))
  {
    hide Contains, CutOf, DigitMarker, HoleFits, Live, NoUnicodeEscapes, Outcomes, Parsed, Quiet, ReaderOf, StateOf,
      StopAt, StopsInside, Unbordered, Formed, Trimmed, Dumped, NeedsCut, SlashFollows;
    assert e[..|s|] == s;
    FreshPrefix(show, e, marker, |s|);
    LaterArguments(show, s, e, marker, paths, isPartial);
    if SlashFollows(s, e) {
      SlashTakesBack(show, s, e, marker, paths, isPartial);
    } else {
      SameMarkerStreams(show, s, e, marker, paths, isPartial);
      StopDelivers(show, s, marker, paths);
    }
  }

  /**
   Where the whole reply is arguments, it is exactly then that they are taken back: the reply
   stopped behind a backslash, and a slash follows.
   */
  lemma ArgumentsStreamIff(
    show: string -> string, s: string, marker: string, e: string, other: string, paths: Paths, isPartial: bool)
    requires s <= e && Open(s) && Live(e) && Fresh(show, s, marker) && Fresh(show, e, other)
    requires Unbordered(marker) && Unbordered(other) && Apart(paths) && [] in paths.args
    requires Parsed(s, marker).Partial? && (Open(e) ==> isPartial && StopsBetween(e, paths))
    ensures var a, b := Outcomes(show, s, marker, true, paths), Outcomes(show, e, other, isPartial, paths);
            && a.Consumed? && b.Consumed? && a.value.Str? && b.value.Str?
            && (a.value.s <= b.value.s <==> !SlashFollows(s, e))
  {
    hide Contains, DigitMarker, Live, NoUnicodeEscapes, Outcomes, Parsed, Quiet, StateOf, Unbordered, NeedsCut, SlashFollows;
    assert e[..|s|] == s;
    FreshPrefix(show, e, other, |s|);
    AnyMarkerDelivers(show, s, marker, other, paths);
    SameMarkerIff(show, s, e, other, paths, isPartial);
  }

  /** The whole reply is delivered as a string. */
  lemma LaterArguments(show: string -> string, s: string, e: string, marker: string, paths: Paths, isPartial: bool)
    requires s <= e && Open(s) && Live(e) && Fresh(show, s, marker) && Fresh(show, e, marker) && Unbordered(marker) && Apart(paths)
    requires [] in paths.args && Parsed(s, marker).Partial? && (Open(e) ==> isPartial && StopsBetween(e, paths))
    ensures var b := Outcomes(show, e, marker, isPartial, paths); b.Consumed? && b.value.Str?
  {
    hide Accepts, Contains, DigitMarker, Dump, HoleFits, Live, NoUnicodeEscapes, Outcomes, Parsed, Quiet, ReaderOf,
      StateOf, Unbordered, ValueOf, Trimmed, Dumped, StopAt, StopsInside;
    if Open(e) {
      DigitsAreSafe(show, e, marker);
      HealableIsPartial(e, marker);
      StopDelivers(show, e, marker, paths);
    } else {
      StartsBegun(show, s, e, marker, paths);
      WholeShown(show, paths, marker, e);
      ParsedIsSound(e, marker);
      FreshHas(show, e, marker);
      PlainEscapesNone(e);
      WholeReply(show, e, marker, isPartial, paths);
    }
  }

  // ----- what the conditions are for

  lemma {:induction false} SafeText(w: string)
    requires StringSafe(w)
    ensures WellEscaped(w) && Unescaped(w) == w && EscapeAll(w) == w && '"' !in w
    decreases |w|
  {
    hide Escape, Unescaped, WellEscaped;
    if w == "" {
      NothingUnescaped();
      NothingWritten();
    } else {
      var c := w[0];
      assert c in w && forall d :: d in w[1..] ==> d in w;
      assert w == [c] + w[1..];
      SafeText(w[1..]);
      WellEscapedOne(c);
      WellEscapedAppend([c], w[1..]);
      EscapeSolid(c);
    }
  }

  lemma NothingWritten()
    ensures WellEscaped("")
  {
  }

  /** The reader of a text that stopped in the first string of an array. */
  lemma ArrayTextReads(show: string -> string, w: string)
    requires StringSafe(w)
    ensures Read(show, BEGIN, "[\"" + w) == Some(Reader(State(Text(false, Plain), [InArray]), Build([ArrayFrame([])], w, Null)))
  {
    var first := Reader(State(ArrayFirst, [InArray]), Build([ArrayFrame([])], "", Null));
    var text := Reader(State(Text(false, Plain), [InArray]), Build([ArrayFrame([])], "", Null));
    assert START.stack + [InArray] == [InArray] && [] + [ArrayFrame([])] == [ArrayFrame([])];
    assert Next(show, BEGIN, '[') == Some(first) && Next(show, first, '"') == Some(text);
    SafeText(w);
    MarkerRun(text.st, w);
    hide Next, Read;
    ReadOne(show, BEGIN, '[');
    ReadSnoc(show, BEGIN, ['['], '"');
    assert ['['] + ['"'] == "[\"" && "" + w == w;
    ReadAppend(show, BEGIN, "[\"", w);
    TextReads(show, text, w);
  }

  lemma ArrayTextStops(show: string -> string, w: string)
    requires StringSafe(w)
    ensures Open("[\"" + w) && StopsInside(show, "[\"" + w) && !MidElement(StateOf("[\"" + w))
    ensures StopAt(show, "[\"" + w) == Stop([ArrayFrame([])], false, w, "")
  {
    var s := "[\"" + w;
    ArrayTextReads(show, w);
    ReadState(show, BEGIN, s);
    SafeText(w);
    hide Read, Run, Unescaped;
  }

  /** Such a text, where the whole reply is arguments. */
  lemma ArrayTextDelivers(show: string -> string, w: string, marker: string, paths: Paths)
    requires StringSafe(w) && Fresh(show, "[\"" + w, marker) && [] in paths.args
    ensures Outcomes(show, "[\"" + w, marker, true, paths) == Consumed(Str(Trimmed("[\"" + w, "", marker)), true, |w| + 2)
  {
    hide Contains, DigitMarker, NoUnicodeEscapes, Outcomes, Parsed, Quiet, StateOf, StopsInside, StopAt, Trimmed;
    var s := "[\"" + w;
    ArrayTextStops(show, w);
    DigitsAreSafe(show, s, marker);
    HealableIsPartial(s, marker);
    StopDelivers(show, s, marker, paths);
    SafeText(w);
    ArrayStopText(w);
  }

  lemma ArrayStopText(w: string)
    requires EscapeAll(w) == w
    ensures StopText(Stop([ArrayFrame([])], false, w, "")) == "[\"" + w
  {
    hide EscapeAll;
    SingleText(ArrayFrame([]), false, w);
    assert FrameText(ArrayFrame([])) == "[" by {
      assert DumpItems([]) == "" && "[" + "" + "" == "[";
    }
    assert "[" + "\"" == "[\"";
  }

  lemma PlainFresh(show: string -> string, s: string, marker: string)
    requires DigitMarker(marker) && !Contains(s, marker) && '\\' !in s && forall n :: show(n) == n
    ensures Fresh(show, s, marker)
  {
    hide Contains;
    AsWritten(show, s, marker);
  }

  /** With the marker 121, which ends as it begins, a digit that was delivered is taken back when the next one arrives. */
  lemma BorderTakesBack(show: string -> string, paths: Paths)
    requires [] in paths.args && forall n :: show(n) == n
    ensures Outcomes(show, "[\"1", "121", true, paths) == Consumed(Str("[\"1"), true, 3)
    ensures Outcomes(show, "[\"12", "121", true, paths) == Consumed(Str("[\""), true, 4)
    ensures DigitMarker("121") && !Unbordered("121")
  {
    hide Outcomes, Fresh;
    var s, e := "[\"1", "[\"12";
    assert s == "[\"" + "1" && e == "[\"" + "12";
    assert "121"[2..] == "1" && "121"[..1] == "1";
    TooShort();
    PlainFresh(show, s, "121");
    PlainFresh(show, e, "121");
    ArrayTextDelivers(show, "1", "121", paths);
    ArrayTextDelivers(show, "12", "121", paths);
    TrimmedBorder();
  }

  lemma TooShort()
    ensures !Contains("[\"1", "121") && !Contains("[\"12", "121")
  {
    FirstTwoLetters("[\"12", "121", 0);
    FirstTwoLetters("[\"12", "121", 1);
  }

  lemma FirstTwoLetters(s: string, p: string, i: nat)
    requires |p| >= 2
    ensures Occurs(s, p, i) ==> i + 1 < |s| && s[i] == p[0] && s[i + 1] == p[1]
  {
    if Occurs(s, p, i) {
      OccursWithin(s, p, i, 0);
      OccursWithin(s, p, i, 1);
    }
  }

  lemma TrimmedBorder()
    ensures Trimmed("[\"1", "", "121") == "[\"1" && Trimmed("[\"12", "", "121") == "[\""
  {
    var a, b := "[\"1" + "121", "[\"12" + "121";
    assert "" + "121" == "121";
    assert a[3..6] == "121" && b[2..5] == "121";
    assert Occurs(a, "121", 3) && Occurs(b, "121", 2);
    assert a[0] != '1' && a[1] != '1' && a[3] != '2' && b[0] != '1' && b[1] != '1';
    forall i: nat | i < 3
      ensures !Occurs(a, "121", i) && (i < 2 ==> !Occurs(b, "121", i))
    {
      FirstTwoLetters(a, "121", i);
      FirstTwoLetters(b, "121", i);
    }
  }

  const HALF := [0xC3 as char]

  lemma HalfReads(show: string -> string)
    ensures var r := Read(show, BEGIN, "[\"x" + HALF);
            r.Some? && r.value.st.stack == [InArray] && r.value.st.mode.Text? && r.value.st.mode.part.Utf8?
    ensures Read(show, BEGIN, "[") == Some(Reader(State(ArrayFirst, [InArray]), Build([ArrayFrame([])], "", Null)))
  {
    ArrayTextReads(show, "x");
    assert "[\"" + "x" == "[\"x";
    ReadSnoc(show, BEGIN, "[\"x", HALF[0]);
    assert "[\"x" + HALF == "[\"x" + [HALF[0]];
    assert START.stack + [InArray] == [InArray] && [] + [ArrayFrame([])] == [ArrayFrame([])];
    var first := Reader(State(ArrayFirst, [InArray]), Build([ArrayFrame([])], "", Null));
    assert Next(show, BEGIN, '[') == Some(first);
    ReadOne(show, BEGIN, '[');
    assert ['['] == "[";
  }

  lemma HalfStops(show: string -> string)
    ensures var e := "[\"x" + HALF;
            && Open(e) && MidElement(StateOf(e)) && Healable(e) && CutOf(e) == "["
            && StopsInside(show, e) && StopAt(show, e) == Stop([ArrayFrame([])], false, "", "\"")
  {
    var e := "[\"x" + HALF;
    HalfReads(show);
    ReadState(show, BEGIN, e);
    ReadState(show, BEGIN, "[");
    hide Read, Run;
    var p := LastIndexOf(e, "[,");
    assert e[0] == '[' && e[1] != '[' && e[1] != ',' && e[2] == 'x' && e[3] == HALF[0];
    assert p == Some(0);
    assert e[..1] == "[";
  }

  /** Between the two bytes of a character, what was delivered of the string is taken back to where it began. */
  lemma HalfCharacterTakesBack(show: string -> string, marker: string, paths: Paths)
    requires DigitMarker(marker) && [] in paths.args && forall n :: show(n) == n
    ensures Outcomes(show, "[\"x", marker, true, paths) == Consumed(Str("[\"x"), true, 3)
    ensures Outcomes(show, "[\"x" + HALF, marker, true, paths) == Consumed(Str("["), true, 4)
  {
    hide Outcomes, Fresh, StateOf, Open, Trimmed, StopsInside, StopAt, Parsed, CutOf, DigitMarker, Contains;
    var e := "[\"x" + HALF;
    assert "[\"" + "x" == "[\"x";
    NoDigitHere("[\"x", marker);
    NoDigitHere(e, marker);
    PlainFresh(show, "[\"x", marker);
    PlainFresh(show, e, marker);
    ArrayTextDelivers(show, "x", marker, paths);
    NothingToTrim("[\"x", marker);
    HalfStops(show);
    DigitsAreSafe(show, e, marker);
    HealableIsPartial(e, marker);
    StopDelivers(show, e, marker, paths);
    ArrayStart(marker, paths);
  }

  lemma NoDigitHere(s: string, marker: string)
    requires DigitMarker(marker) && forall c :: c in s ==> !IsDigit(c)
    ensures !Contains(s, marker)
  {
    NoDigits(s, marker);
  }

  lemma NothingToTrim(x: string, marker: string)
    requires DigitMarker(marker) && x != "" && forall c :: c in x ==> !IsDigit(c)
    ensures Trimmed(x, "", marker) == x
  {
    assert "" + marker == marker && Occurs(x + marker, marker, |x|);
    assert marker[0] in marker && forall k :: 0 <= k < |x| ==> x[k] in x;
    forall k: nat | k < |x|
      ensures !Occurs(x + marker, marker, k)
    {
      FirstLetter(x + marker, marker, k);
    }
  }

  lemma FirstLetter(s: string, p: string, i: nat)
    requires p != ""
    ensures Occurs(s, p, i) ==> i < |s| && s[i] == p[0]
  {
    if Occurs(s, p, i) {
      OccursWithin(s, p, i, 0);
    }
  }

  lemma ArrayStart(marker: string, paths: Paths)
    requires DigitMarker(marker) && [] in paths.args
    ensures DeliveredAt(paths, marker, Stop([ArrayFrame([])], false, "", "\""), []) == Some(Str("["))
  {
    hide DigitMarker;
    NothingEscaped();
    ArrayStopText("");
    var x := "[\"";
    assert "[\"" + "" == x;
    NoDigitHere(x, marker);
    assert x[..1] == "[";
    LedInPlace(x, "[", "\"", marker);
  }

  /** A backslash at the end of content takes the whole member back. */
  lemma SlashDropsContent(show: string -> string, s: string, marker: string, paths: Paths)
    requires Open(s + ['\\']) && Open(s) && Fresh(show, s, marker) && Fresh(show, s + ['\\'], marker)
    requires StateOf(s).mode == Text(false, Plain) && Unbordered(marker) && Apart(paths)
    requires |ReaderOf(show, s).b.frames| == 1 && ReaderOf(show, s).b.frames[0].ObjectFrame?
    requires [] !in paths.args && [] !in paths.contents
    requires var f := ReaderOf(show, s).b.frames[0]; [f.key] in paths.contents && !MembersMisplaced(paths, f.members, [])
    ensures var f, text := ReaderOf(show, s).b.frames[0], Unescaped(ReaderOf(show, s).b.token);
            var kept := MembersDumpedAt(paths, f.members, []);
            && Outcomes(show, s, marker, true, paths) == Consumed(Obj(kept + [Member(f.key, Str(text))]), true, |s|)
            && Outcomes(show, s + ['\\'], marker, true, paths) == Consumed(Obj(kept), true, |s| + 1)
  {
    hide Contains, DigitMarker, Live, MembersDumpedAt, MembersMisplaced, NoUnicodeEscapes, Outcomes, Parsed, Quiet,
      ReaderOf, StateOf, Unbordered, Unescaped, StringDelivered, HoleFits, Trimmed, Next, DeliveredAt, StopAt,
      StopsInside, Inside, Counts, Tracks, Unseen;
    var e := s + ['\\'];
    var r, next := ReaderOf(show, s), ReaderOf(show, e);
    ReaderState(show, s);
    ReaderState(show, e);
    ReaderNext(show, s, '\\');
    SlashRead(show, r, next);
    DigitsAreSafe(show, s, marker);
    HealableIsPartial(s, marker);
    HealableIsPartial(e, marker);
    StopDelivers(show, s, marker, paths);
    StopDelivers(show, e, marker, paths);
    ContentStop(show, s, marker);
    ContentStops(show, s, r, next);
    assert r.b.frames == [r.b.frames[0]];
    ContentDelivered(paths, marker, r.b.frames[0], Unescaped(r.b.token));
  }

  lemma ContentStops(show: string -> string, s: string, r: Reader, next: Reader)
    requires StopsInside(show, s) && StopsInside(show, s + ['\\']) && r == ReaderOf(show, s) && next == ReaderOf(show, s + ['\\'])
    requires r.st == StateOf(s) && next.st == StateOf(s + ['\\'])
    requires r.st.mode == Text(false, Plain) && next.st.mode == Text(false, Backslash) && next.b == r.b.(token := r.b.token + ['\\'])
    ensures StopAt(show, s) == Stop(r.b.frames, false, Unescaped(r.b.token), "")
    ensures StopAt(show, s + ['\\']) == Stop(r.b.frames, false, Unescaped(r.b.token) + "\\", "\\")
  {
    hide CutOf, ReaderOf, Unescaped, StateOf, Live, LastIndexOf, Openers;
    TextIsWhole(s);
    TextIsWhole(s + ['\\']);
    assert (r.b.token + ['\\'])[..|r.b.token|] == r.b.token;
  }

  /** In a string, between elements or behind a backslash, nothing is cut. */
  lemma TextIsWhole(s: string)
    requires Open(s) && StateOf(s).mode.Text? && (StateOf(s).mode.part.Plain? || StateOf(s).mode.part.Backslash?)
    ensures CutOf(s) == s
  {
    hide StateOf, Live, LastIndexOf, Openers;
  }

  lemma ContentDelivered(p: Paths, marker: string, f: Frame, text: string)
    requires Steady(marker) && Unseen(text, marker) && Apart(p) && f.ObjectFrame? && [] !in p.args && [] !in p.contents
    requires [f.key] in p.contents && !MembersMisplaced(p, f.members, [])
    ensures var kept := MembersDumpedAt(p, f.members, []);
            && DeliveredAt(p, marker, Single(f, false, text, ""), []) == Some(Obj(kept + [Member(f.key, Str(text))]))
            && DeliveredAt(p, marker, Single(f, false, text + "\\", "\\"), []) == Some(Obj(kept))
  {
    hide MembersDumpedAt, MembersMisplaced, StringDelivered, Trimmed, Steady, Unseen;
    assert [] + [f.key] == [f.key];
    ContentShown(p, marker, text, [f.key]);
    var kept := MembersDumpedAt(p, f.members, []);
    assert kept + [] == kept;
  }

  lemma SlashRead(show: string -> string, r: Reader, next: Reader)
    requires r.st.mode == Text(false, Plain) && Next(show, r, '\\') == Some(next)
    ensures next.st.mode == Text(false, Backslash) && next.b == r.b.(token := r.b.token + ['\\'])
  {
  }

  lemma ContentStop(show: string -> string, s: string, marker: string)
    requires Live(s) && Fresh(show, s, marker) && StateOf(s).mode == Text(false, Plain)
    ensures ReaderOf(show, s).st == StateOf(s) && Unseen(Unescaped(ReaderOf(show, s).b.token), marker)
  {
    hide Contains, DigitMarker, NoUnicodeEscapes, Quiet, ReaderOf, Unescaped, Unseen, Inside, Counts, WellEscaped;
    ReaderInside(show, s, marker);
    TokenUnseen(s, ReaderOf(show, s).b.token, marker);
  }
}

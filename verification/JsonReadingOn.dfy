/** Reading on: what is delivered of a text grows with every character that is read. */
module JsonReadingOn {
  import opened Base
  import opened JsonMachine
  import opened JsonShape
  import opened JsonErrorLocator
  import opened JsonDump
  import opened JsonPartialResults
  import opened JsonCleaning
  import opened JsonValues
  import opened JsonHealedValues
  import opened JsonPartialValues
  import opened JsonGrowth

  // ----- where a reader is

  /** The elements of the string under way that are complete. */
  function WholeElements(token: string, part: TextPart): string {
    if part.Backslash? && token != "" then token[..|token| - 1] else token
  }

  function StopOf(st: State, b: Build): Stop
    requires b.frames != []
  {
    match st.mode
    case ObjectFirst => Stop(b.frames, true, "", "\"")
    case ObjectKey => Stop(b.frames, true, "", "\"")
    case Colon => Stop(b.frames, false, "", ":\"")
    case After => AfterValue(b.frames)
    case Text(key, part) => Stop(b.frames, key, Unescaped(WholeElements(b.token, part)), "")
    case _ => Stop(b.frames, false, "", "\"")
  }

  /** A reader inside a container. */
  predicate Inside(st: State, b: Build, marker: string) {
    && b.frames != [] && Kinds(b.frames) == st.stack && FitsTop(st.mode, st.stack)
    && Clear(b.frames, marker) && FilledWhere(st, b.frames)
    && (st.mode.Text? ==> Unseen(Unescaped(WholeElements(b.token, st.mode.part)), marker))
  }

  lemma LastKind(fs: seq<Frame>)
    requires fs != []
    ensures Kinds(fs) != [] && Top(Kinds(fs)) == Kind(fs[|fs| - 1])
  {
  }

  lemma InsideFormed(st: State, b: Build, marker: string)
    requires Inside(st, b, marker)
    ensures Formed(StopOf(st, b))
    ensures st.mode.Colon? ==> b.frames[|b.frames| - 1].ObjectFrame?
  {
    hide Clear, FilledWhere, Unescaped, Unseen, Kinds;
    LastKind(b.frames);
  }

  lemma EndsInQuote(s: Stop)
    requires Formed(s) && s.text == "" && IsLead(s.lead) && s.lead != "" && s.lead != "\\"
    requires Suffix(Before(s.fs, s.key) + "\"", s.lead)
    ensures Suffix(StopText(s), s.lead)
  {
    hide Before, HoleFits, Suffix;
    NothingEscaped();
    assert Before(s.fs, s.key) + "\"" + "" == Before(s.fs, s.key) + "\"";
  }

  /** What has been dumped goes up to the place where the text stops. */
  lemma InsidePlaced(st: State, b: Build, marker: string)
    requires Inside(st, b, marker) && DigitMarker(marker)
    ensures Placed(StopOf(st, b), marker)
  {
    hide Clear, DigitMarker, Dumped, Unescaped, Unseen, FitsTop, FilledWhere, Before, HoleFits, Suffix, Kinds;
    InsideFormed(st, b, marker);
    NotBlank(marker);
    EmptyUnseen(marker);
    var s := StopOf(st, b);
    match st.mode
    case Colon => ColonPlace(b.frames);
    case After => AfterPlace(st, b, marker);
    case Text(_, _) => NothingEnds(StopText(s));
    case _ => QuotePlace(s);
  }

  lemma QuotePlace(s: Stop)
    requires Formed(s) && s.text == "" && s.lead == "\""
    ensures Suffix(StopText(s), s.lead)
  {
    hide Before, HoleFits, Dumped;
    SuffixBehind(Before(s.fs, s.key), "\"", "\"");
    EndsInQuote(s);
  }

  lemma ColonPlace(fs: seq<Frame>)
    requires fs != [] && fs[|fs| - 1].ObjectFrame?
    ensures Suffix(StopText(Stop(fs, false, "", ":\"")), ":\"")
  {
    hide OpenText, Suffix, Dumped;
    ColonText(fs);
    SuffixQuote(OpenText(fs), ":");
    assert ":" + ['"'] == ":\"" && ['"'] == "\"";
    EndsInQuote(Stop(fs, false, "", ":\""));
  }

  lemma AfterPlace(st: State, b: Build, marker: string)
    requires Inside(st, b, marker) && st.mode.After?
    ensures Suffix(StopText(AfterValue(b.frames)), ",\"")
  {
    hide OpenText, HeadText, Suffix, Clear, Kinds, Dumped;
    var s := AfterValue(b.frames);
    CommaText(b.frames);
    SuffixQuote(Before(b.frames, s.key), ",");
    assert "," + ['"'] == ",\"" && ['"'] == "\"";
    EndsInQuote(s);
  }

  /** What is delivered of what has been read. */
  function Delivery(p: Paths, marker: string, st: State, b: Build): Option<Json>
    requires b.frames != [] ==> Formed(StopOf(st, b))
  {
    if b.frames == [] then Final(p, b.value, []) else DeliveredAt(p, marker, StopOf(st, b), [])
  }

  lemma {:induction false} PlacedLocal(front: seq<Frame>, s: Stop, marker: string)
    requires s.fs != [] && Placed(s.(fs := front + s.fs), marker)
    ensures Placed(s, marker)
    decreases |front|
  {
    hide Placed;
    if front == [] {
      assert front + s.fs == s.fs;
    } else {
      var s' := s.(fs := front[1..] + s.fs);
      assert [front[0]] + s'.fs == front + s.fs;
      PlacedInner(front[0], s', marker);
      PlacedLocal(front[1..], s, marker);
    }
  }

  /** A step in the innermost containers, seen from the outside. */
  lemma LocalStep(p: Paths, marker: string, front: seq<Frame>, s: Stop, t: Stop)
    requires s.fs != [] && t.fs != [] && Steady(marker)
    requires Placed(s.(fs := front + s.fs), marker) && Placed(t.(fs := front + t.fs), marker)
    requires forall inner: Path :: Further(p, marker, s, t, inner)
    ensures Formed(s.(fs := front + s.fs)) && Formed(t.(fs := front + t.fs))
    ensures Grows(p, DeliveredAt(p, marker, s.(fs := front + s.fs), []), DeliveredAt(p, marker, t.(fs := front + t.fs), []), [])
  {
    hide DeliveredAt, Grows, Placed, Steady, Stem;
    FrontsGrow(p, marker, front, s, t, []);
  }

  lemma SplitLast(fs: seq<Frame>)
    requires fs != []
    ensures fs[..|fs| - 1] + [fs[|fs| - 1]] == fs
  {
  }

  /** The string or scalar that was under way is put into the innermost container. */
  lemma PutStep(p: Paths, marker: string, st: State, b: Build, v: Json)
    requires b.frames != [] && Inside(st, b, marker) && Steady(marker) && Apart(p) && Puts(StopOf(st, b), v)
    requires Inside(State(After, st.stack), Put(b, v), marker)
    ensures Formed(StopOf(st, b)) && Formed(StopOf(State(After, st.stack), Put(b, v)))
    ensures Grows(p, Delivery(p, marker, st, b), Delivery(p, marker, State(After, st.stack), Put(b, v)), [])
  {
    hide Inside, DeliveredAt, Grows, Placed, Stem, Unbordered, Puts, DigitMarker, Unescaped, Added;
    var front, f := b.frames[..|b.frames| - 1], b.frames[|b.frames| - 1];
    var s := StopOf(st, b).(fs := [f]);
    var t := AfterValue([Added(f, v)]);
    SplitLast(b.frames);
    InsidePlaced(st, b, marker);
    InsidePlaced(State(After, st.stack), Put(b, v), marker);
    InsideFormed(st, b, marker);
    InsideFormed(State(After, st.stack), Put(b, v), marker);
    assert StopOf(st, b) == s.(fs := front + [f]);
    assert StopOf(State(After, st.stack), Put(b, v)) == t.(fs := front + t.fs);
    PlacedLocal(front, s, marker);
    PlacedLocal(front, t, marker);
    SamePuts(StopOf(st, b), [f], v);
    forall inner: Path
      ensures Further(p, marker, s, t, inner)
    {
      PutGrows(p, marker, f, s, v, inner);
    }
    LocalStep(p, marker, front, s, t);
  }

  lemma SamePuts(s: Stop, fs: seq<Frame>, v: Json)
    requires Puts(s, v)
    ensures Puts(s.(fs := fs), v)
  {
  }

  /** The text goes on in the innermost container, and nothing is put into it. */
  lemma TipStep(p: Paths, marker: string, st: State, b: Build, next: State, after: Build)
    requires b.frames != [] && Inside(st, b, marker) && Inside(next, after, marker) && Steady(marker) && Apart(p)
    requires |after.frames| == |b.frames| && after.frames[..|after.frames| - 1] == b.frames[..|b.frames| - 1]
    requires SameContents(b.frames[|b.frames| - 1], after.frames[|after.frames| - 1])
    requires TipAdvances(p, b.frames[|b.frames| - 1], StopOf(st, b), after.frames[|after.frames| - 1], StopOf(next, after))
    ensures Formed(StopOf(st, b)) && Formed(StopOf(next, after))
    ensures Grows(p, Delivery(p, marker, st, b), Delivery(p, marker, next, after), [])
  {
    hide Inside, DeliveredAt, Grows, Placed, Stem, Unbordered, DigitMarker, Unescaped, SameContents;
    var front, f, g := b.frames[..|b.frames| - 1], b.frames[|b.frames| - 1], after.frames[|after.frames| - 1];
    var s, t := StopOf(st, b).(fs := [f]), StopOf(next, after).(fs := [g]);
    SplitLast(b.frames);
    SplitLast(after.frames);
    InsidePlaced(st, b, marker);
    InsidePlaced(next, after, marker);
    InsideFormed(st, b, marker);
    InsideFormed(next, after, marker);
    assert StopOf(st, b) == s.(fs := front + [f]) && StopOf(next, after) == t.(fs := front + [g]);
    PlacedLocal(front, s, marker);
    PlacedLocal(front, t, marker);
    forall inner: Path
      ensures Further(p, marker, s, t, inner)
    {
      TipGrows(p, marker, f, g, s, t, inner);
    }
    LocalStep(p, marker, front, s, t);
  }

  predicate TipAdvances(p: Paths, f: Frame, s: Stop, g: Frame, t: Stop) {
    && (s.key ==> f.ObjectFrame?) && (t.key ==> g.ObjectFrame?)
    && Stem(Single(f, s.key, s.text, s.lead)) <= Stem(Single(g, t.key, t.text, t.lead))
    && (p.contents != [] && !s.key && s.lead == "" ==> f == g && !t.key && t.lead == "" && s.text <= t.text)
  }

  // ----- one more character read

  /** A character that opens a container. */
  lemma OpenStep(p: Paths, marker: string, st: State, b: Build, c: char, next: State)
    requires b.frames != [] && Inside(st, b, marker) && Between(st, c) == Some(next) && BetweenTokens(st) && (c == '{' || c == '[')
    requires Inside(next, Structure(b, c), marker) && Steady(marker) && Apart(p)
    ensures Formed(StopOf(st, b)) && Formed(StopOf(next, Structure(b, c)))
    ensures Grows(p, Delivery(p, marker, st, b), Delivery(p, marker, next, Structure(b, c)), [])
  {
    OpeningStops(st, b, c, next, marker);
    hide Inside, DeliveredAt, Grows, Placed, Stem, Unbordered, DigitMarker, Between, StopOf, Structure;
    var front, f := b.frames[..|b.frames| - 1], b.frames[|b.frames| - 1];
    var g := if c == '{' then ObjectFrame([], "") else ArrayFrame([]);
    var s, t := Single(f, false, "", "\""), Stop([f, g], g.ObjectFrame?, "", "\"");
    InsidePlaced(st, b, marker);
    InsidePlaced(next, Structure(b, c), marker);
    InsideFormed(st, b, marker);
    InsideFormed(next, Structure(b, c), marker);
    PlacedLocal(front, s, marker);
    PlacedLocal(front, t, marker);
    forall inner: Path
      ensures Further(p, marker, s, t, inner)
    {
      OpenGrows(p, marker, f, g, s, t, inner);
    }
    LocalStep(p, marker, front, s, t);
  }

  lemma OpeningStops(st: State, b: Build, c: char, next: State, marker: string)
    requires b.frames != [] && Inside(st, b, marker) && Between(st, c) == Some(next) && BetweenTokens(st) && (c == '{' || c == '[')
    ensures var front, f := b.frames[..|b.frames| - 1], b.frames[|b.frames| - 1];
            var g := if c == '{' then ObjectFrame([], "") else ArrayFrame([]);
            && StopOf(st, b) == Single(f, false, "", "\"").(fs := front + [f])
            && Structure(b, c).frames == front + [f, g]
            && StopOf(next, Structure(b, c)) == Stop([f, g], g.ObjectFrame?, "", "\"").(fs := front + [f, g])
  {
    hide Clear, Kinds, FilledWhere;
    OpeningTracks(st, c, next);
    SplitLast(b.frames);
    hide Between, FitsTop;
  }

  /** A bracket that closes the innermost container. */
  lemma CloseStep(p: Paths, marker: string, st: State, b: Build, c: char, next: State)
    requires b.frames != [] && Inside(st, b, marker) && Between(st, c) == Some(next) && BetweenTokens(st) && (c == '}' || c == ']')
    requires Structure(b, c).frames != [] ==> Inside(next, Structure(b, c), marker)
    requires Steady(marker) && Apart(p)
    ensures Formed(StopOf(st, b)) && (Structure(b, c).frames != [] ==> Formed(StopOf(next, Structure(b, c))))
    ensures Grows(p, Delivery(p, marker, st, b), Delivery(p, marker, next, Structure(b, c)), [])
  {
    ClosingStops(st, b, c, next, marker);
    hide Inside, DeliveredAt, Grows, Placed, Stem, Unbordered, DigitMarker, Between, StopOf, Structure, Final,
      Closable, Closed;
    var g := b.frames[|b.frames| - 1];
    var s := StopOf(st, b).(fs := [g]);
    InsidePlaced(st, b, marker);
    InsideFormed(st, b, marker);
    if |b.frames| == 1 {
      assert s == StopOf(st, b);
      CloseGrows(p, marker, g, s, []);
    } else {
      var front, f := b.frames[..|b.frames| - 2], b.frames[|b.frames| - 2];
      var t := AfterValue([Added(f, Closed(g))]);
      var both := s.(fs := [f] + s.fs);
      InsidePlaced(next, Structure(b, c), marker);
      InsideFormed(next, Structure(b, c), marker);
      PlacedLocal(front, both, marker);
      PlacedLocal(front, t, marker);
      PlacedInner(f, s, marker);
      PlacedFormed(s, marker);
      ClosedIsNoString(g);
      forall inner: Path
        ensures Further(p, marker, both, t, inner)
      {
        CloseGrows(p, marker, g, s, if f.ArrayFrame? then inner else inner + [f.key]);
        ClosedPutGrows(p, marker, f, s, Closed(g), inner);
      }
      LocalStep(p, marker, front, both, t);
    }
  }

  lemma ClosedIsNoString(g: Frame)
    ensures !Closed(g).Str?
  {
  }

  lemma ClosingStops(st: State, b: Build, c: char, next: State, marker: string)
    requires b.frames != [] && Inside(st, b, marker) && Between(st, c) == Some(next) && BetweenTokens(st) && (c == '}' || c == ']')
    ensures var n, after := |b.frames|, Structure(b, c);
            var g := b.frames[n - 1];
            var s := StopOf(st, b).(fs := [g]);
            && Closable(g, s)
            && (n == 1 ==> after.frames == [] && after.value == Closed(g) && StopOf(st, b) == s)
            && (n > 1 ==>
                  var front, f := b.frames[..n - 2], b.frames[n - 2];
                  var t := AfterValue([Added(f, Closed(g))]);
                  && StopOf(st, b) == s.(fs := front + ([f] + s.fs))
                  && after.frames == front + t.fs && StopOf(next, after) == t.(fs := front + t.fs))
  {
    hide Between, BetweenTokens, Closable, FitsTop, Inside, Closed, Added, StopOf, Structure;
    ClosingModes(st, b, c, next, marker);
    StructureCloses(b, c);
    StopFrames(st, b);
    var n, after := |b.frames|, Structure(b, c);
    if n > 1 {
      StopAfter(next, after);
      assert b.frames == b.frames[..n - 2] + ([b.frames[n - 2]] + [b.frames[n - 1]]);
    } else {
      assert b.frames == [b.frames[0]];
    }
  }

  lemma StopFrames(st: State, b: Build)
    requires b.frames != []
    ensures StopOf(st, b).fs == b.frames
  {
  }

  lemma StopAfter(st: State, b: Build)
    requires b.frames != [] && st.mode.After?
    ensures StopOf(st, b) == AfterValue(b.frames)
  {
  }

  lemma StructureCloses(b: Build, c: char)
    requires b.frames != [] && (c == '}' || c == ']')
    ensures var n, after := |b.frames|, Structure(b, c);
            var g := b.frames[n - 1];
            && (n == 1 ==> after.frames == [] && after.value == Closed(g))
            && (n > 1 ==> after.frames == b.frames[..n - 2] + [Added(b.frames[n - 2], Closed(g))])
  {
    hide Closed, Added;
    var n := |b.frames|;
    if n > 1 {
      assert b.frames[..n - 1][..n - 2] == b.frames[..n - 2] && b.frames[..n - 1][n - 2] == b.frames[n - 2];
    }
  }

  lemma ClosingModes(st: State, b: Build, c: char, next: State, marker: string)
    requires b.frames != [] && Inside(st, b, marker) && Between(st, c) == Some(next) && BetweenTokens(st) && (c == '}' || c == ']')
    ensures next.mode.After?
    ensures Closable(b.frames[|b.frames| - 1], StopOf(st, b).(fs := [b.frames[|b.frames| - 1]]))
  {
    hide Clear, Kinds;
    ClosingStep(st, c, next);
    LastKind(b.frames);
    SameTop(b.frames);
    hide TopFilled;
  }

  lemma SameTop(fs: seq<Frame>)
    requires fs != []
    ensures TopFilled([fs[|fs| - 1]]) == TopFilled(fs)
  {
  }

  /** Any other character outside tokens: the containers stay as they are. */
  lemma NeutralStep(p: Paths, marker: string, st: State, b: Build, c: char, next: State)
    requires b.frames != [] && Inside(st, b, marker) && Between(st, c) == Some(next) && BetweenTokens(st) && c !in "{[}]"
    requires Inside(next, Structure(b, c), marker) && Steady(marker) && Apart(p)
    ensures Formed(StopOf(st, b)) && Structure(b, c).frames == b.frames && Formed(StopOf(next, Structure(b, c)))
    ensures Grows(p, Delivery(p, marker, st, b), Delivery(p, marker, next, Structure(b, c)), [])
  {
    hide DeliveredAt, Grows, Placed, Stem, Unbordered, DigitMarker, Clear, Kinds, Between, FitsTop, FilledWhere,
      TopFilled, TipAdvances, Inside;
    OtherAdvances(p, st, b, c, next, marker);
    SameItself(b.frames[|b.frames| - 1]);
    TipStep(p, marker, st, b, next, Structure(b, c));
  }

  lemma SameItself(f: Frame)
    ensures SameContents(f, f)
  {
  }

  lemma HeadHasBody(f: Frame)
    ensures BodyText(f) <= HeadText(f) && (f.ArrayFrame? ==> FrameText(f) == HeadText(f))
    ensures f.ObjectFrame? ==> HeadText(f) + DumpString(f.key) <= FrameText(f)
  {
    hide DumpItems, DumpMembers, DumpString;
    if f.ObjectFrame? {
      assert HeadText(f) + (DumpString(f.key) + ":") == HeadText(f) + DumpString(f.key) + ":";
    }
  }

  /** Where the text stops before and after the character. */
  predicate OtherMoves(f: Frame, s: Stop, t: Stop) {
    || s == t
    || (s.lead == ",\"" && s.text == "" && TopFilled([f]) && (s.key <==> f.ObjectFrame?) && t == Stop(s.fs, s.key, "", "\""))
    || (s == Stop(s.fs, false, "", ":\"") && f.ObjectFrame? && t == Stop(s.fs, false, "", "\""))
    || (s.lead == "\"" && s.text == "" && (s.key ==> f.ObjectFrame?) && t == Stop(s.fs, s.key, "", ""))
  }

  lemma OtherMoved(st: State, b: Build, c: char, next: State, marker: string)
    requires b.frames != [] && Inside(st, b, marker) && Between(st, c) == Some(next) && BetweenTokens(st) && c !in "{[}]"
    ensures Structure(b, c).frames == b.frames
    ensures StopOf(st, b).lead != ""
    ensures var s, t := StopOf(st, b), StopOf(next, Structure(b, c));
            var f := b.frames[|b.frames| - 1];
            (s.key ==> f.ObjectFrame?) && OtherMoves(f, s, t)
  {
    hide Between, Clear, Kinds, TopFilled, Unescaped;
    OtherModes(st, c, next);
    LastKind(b.frames);
    SameTop(b.frames);
    NothingUnescaped();
  }

  lemma OtherModes(st: State, c: char, next: State)
    requires Between(st, c) == Some(next) && BetweenTokens(st) && FitsTop(st.mode, st.stack) && c !in "{[}]"
    ensures c in BLANKS ==> next == st
    ensures c == ',' ==> st.mode.After? && st.stack != [] && next.mode == if Top(st.stack).InObject? then ObjectKey else Value
    ensures c == ':' ==> st.mode.Colon? && next.mode.Value? && st.stack != [] && Top(st.stack).InObject?
    ensures c == '"' ==>
              && (AwaitsValue(st.mode) || st.mode.ObjectFirst? || st.mode.ObjectKey?)
              && next.mode == Text(st.mode.ObjectFirst? || st.mode.ObjectKey?, Plain)
    ensures c !in BLANKS && c != ',' && c != ':' && c != '"' ==> AwaitsValue(st.mode) && (next.mode.Number? || next.mode.Literal?)
  {
  }

  lemma NothingUnescaped()
    ensures Unescaped("") == ""
  {
  }

  lemma OtherAdvances(p: Paths, st: State, b: Build, c: char, next: State, marker: string)
    requires b.frames != [] && Inside(st, b, marker) && Between(st, c) == Some(next) && BetweenTokens(st) && c !in "{[}]"
    ensures Structure(b, c).frames == b.frames
    ensures TipAdvances(p, b.frames[|b.frames| - 1], StopOf(st, b), b.frames[|b.frames| - 1], StopOf(next, Structure(b, c)))
  {
    OtherMoved(st, b, c, next, marker);
    hide Inside, Between, StopOf, Structure, BetweenTokens;
    MovesAdvance(p, b.frames[|b.frames| - 1], StopOf(st, b), StopOf(next, Structure(b, c)));
  }

  lemma MovesAdvance(p: Paths, f: Frame, s: Stop, t: Stop)
    requires OtherMoves(f, s, t) && s.lead != "" && (s.key ==> f.ObjectFrame?)
    ensures TipAdvances(p, f, s, f, t)
  {
    hide Stem, HeadText, FrameText, BodyText, TopFilled, DumpString;
    HeadHasBody(f);
    if s != t {
      if s.lead == ",\"" {
        CommaStem(f);
        StartStem(f, s.key);
      } else if s.lead == ":\"" {
        ColonStem(f);
        StartStem(f, false);
      } else {
        StartStem(f, s.key);
        TextStem(f, s.key, "");
        NothingEscaped();
      }
    }
  }

  lemma StructureGrows(p: Paths, marker: string, st: State, b: Build, c: char, next: State)
    requires b.frames != [] && Inside(st, b, marker) && Between(st, c) == Some(next) && BetweenTokens(st) && Steady(marker) && Apart(p)
    requires Structure(b, c).frames != [] ==> Inside(next, Structure(b, c), marker)
    ensures Formed(StopOf(st, b)) && (Structure(b, c).frames != [] ==> Formed(StopOf(next, Structure(b, c))))
    ensures Grows(p, Delivery(p, marker, st, b), Delivery(p, marker, next, Structure(b, c)), [])
  {
    hide Inside, Between, BetweenTokens, Grows, Delivery, Steady, Apart, StopOf, Put;
    if c == '{' || c == '[' {
      OpenStep(p, marker, st, b, c, next);
    } else if c == '}' || c == ']' {
      CloseStep(p, marker, st, b, c, next);
    } else {
      NeutralStep(p, marker, st, b, c, next);
    }
  }

  // ----- reading on

  lemma ElementsUnseen(mode: Mode, token: string, q: string, marker: string)
    requires mode.Text? && TokenFits(mode, token, q) && DigitMarker(marker) && !Contains(q, marker)
    ensures WellEscaped(WholeElements(token, mode.part)) && Unseen(Unescaped(WholeElements(token, mode.part)), marker)
  {
    hide Contains, DigitMarker, Unseen, Unescaped, WellEscaped;
    if mode.part.Backslash? {
      var front := q[..|q| - 1];
      assert front[|front| - (|token| - 1)..] == token[..|token| - 1];
      PrefixHasNot(q, marker, |front|);
      TokenUnseen(front, token[..|token| - 1], marker);
    } else {
      TokenUnseen(q, token, marker);
    }
  }

  /** A reader that has read a fresh text up to somewhere inside a container. */
  lemma ReaderInside(show: string -> string, q: string, marker: string)
    requires Live(q) && Fresh(show, q, marker)
    ensures var r := ReaderOf(show, q);
            && Tracks(r, q, marker) && Counts(r, q, marker) && NotInEscape(r.st.mode) && r.st == StateOf(q)
            && (r.b.frames != [] ==> Inside(r.st, r.b, marker))
  {
    hide Contains, DigitMarker, FilledWhere, FramesNumbers, FramesStrings, NotInEscape, NoUnicodeEscapes, NumberFits,
      NumbersIn, Quiet, Read, Run, StringsIn, TokenFits, Unescaped, Unseen, NumberText, WholeElements;
    ReaderFacts(show, q, marker);
    CountsText(show, q, marker);
    ReadState(show, BEGIN, q);
    var r := ReaderOf(show, q);
    if r.st.mode.Text? {
      ElementsUnseen(r.st.mode, r.b.token, q, marker);
    }
  }

  lemma GrowsItself(p: Paths, a: Option<Json>, path: Path)
    ensures Grows(p, a, a, path)
  {
  }

  /** One more character of a string: what it stands for goes on. */
  lemma ElementsGrow(mode: Mode, token: string, q: string, c: char, next: Mode)
    requires mode.Text? && next.Text? && TokenFits(mode, token, q) && TextStep(mode.part, c) == Some(next.part) && NotInEscape(mode)
    requires mode.part.Utf8? ==> mode.part.rest != []
    requires NoUnicodeEscapes(q + [c])
    ensures Unescaped(WholeElements(token, mode.part)) <= Unescaped(WholeElements(token + [c], next.part))
    ensures mode.part.Backslash? ==>
              c in "\"\\/bfnrt" && next.part.Plain?
              && Unescaped(token + [c]) == Unescaped(WholeElements(token, mode.part)) + [Meaning(c)]
  {
    AfterBackslash(q, token, c);
    PlainSteps(mode.part, c, next.part);
    hide TextStep, WellEscaped, Unescaped, Meaning, NoUnicodeEscapes, NotInEscape;
    if mode.part.Backslash? {
      var t := token[..|token| - 1];
      assert token + [c] == t + ['\\', c];
      UnescapedJoin(t, ['\\', c]);
      PairUnescaped(c);
    } else {
      UnescapedJoin(token, [c]);
      assert (token + [c])[..|token|] == token;
    }
  }

  lemma PairUnescaped(c: char)
    requires c in "\"\\/bfnrt"
    ensures Unescaped(['\\', c]) == [Meaning(c)]
  {
    WellEscapedPair(c);
  }

  lemma TextNext(show: string -> string, r: Reader, c: char, next: Reader)
    requires r.st.mode.Text? && !(r.st.mode.part.Plain? && c == '"') && Next(show, r, c) == Some(next)
    ensures next.st.mode.Text? && next.st.mode.key == r.st.mode.key && TextStep(r.st.mode.part, c) == Some(next.st.mode.part)
    ensures next.b == r.b.(token := r.b.token + [c])
  {
  }

  lemma InTextGrows(
    show: string -> string, p: Paths, marker: string, r: Reader, q: string, c: char, next: Reader)
    requires r.b.frames != [] && Inside(r.st, r.b, marker) && Steady(marker) && Apart(p) && Next(show, r, c) == Some(next)
    requires r.st.mode.Text? && !(r.st.mode.part.Plain? && c == '"') && TokenFits(r.st.mode, r.b.token, q) && NotInEscape(r.st.mode)
    requires NoUnicodeEscapes(q + [c]) && next.b.frames != [] && Inside(next.st, next.b, marker)
    ensures Formed(StopOf(r.st, r.b)) && Formed(StopOf(next.st, next.b))
    ensures Grows(p, Delivery(p, marker, r.st, r.b), Delivery(p, marker, next.st, next.b), [])
  {
    TextNext(show, r, c, next);
    ElementsGrow(r.st.mode, r.b.token, q, c, next.st.mode);
    InsideFormed(r.st, r.b, marker);
    InsideFormed(next.st, next.b, marker);
    TextStop(r.st, r.b);
    TextStop(next.st, next.b);
    hide Inside, Next, Grows, Delivery, Steady, Apart, Unescaped, NotInEscape, TokenFits, NoUnicodeEscapes, StopOf,
      TipAdvances, SameContents;
    var f := r.b.frames[|r.b.frames| - 1];
    SameItself(f);
    TextAdvances(p, f, StopOf(r.st, r.b), StopOf(next.st, next.b));
    TipStep(p, marker, r.st, r.b, next.st, next.b);
  }

  lemma TextStop(st: State, b: Build)
    requires b.frames != [] && st.mode.Text?
    ensures StopOf(st, b) == Stop(b.frames, st.mode.key, Unescaped(WholeElements(b.token, st.mode.part)), "")
  {
  }

  lemma TextAdvances(p: Paths, f: Frame, s: Stop, t: Stop)
    requires HoleFits([f], s.key) && s.key == t.key && s.lead == t.lead == "" && s.text <= t.text
    ensures TipAdvances(p, f, s, f, t)
  {
    hide Stem, FrameText, HeadText, EscapeAll;
    TextStem(f, s.key, s.text);
    TextStem(f, t.key, t.text);
    EscapedPrefix(s.text, t.text);
    PrefixBehind((if s.key then HeadText(f) else FrameText(f)) + "\"", EscapeAll(s.text), EscapeAll(t.text));
  }

  lemma KeyAdvances(p: Paths, f: Frame, s: Stop, t: Stop)
    requires f.ObjectFrame? && s.key && s.lead == "" && !t.key && t.text == "" && t.lead == ":\""
    ensures TipAdvances(p, f, s, f.(key := s.text), t)
  {
    hide Stem, HeadText, EscapeAll;
    var g := f.(key := s.text);
    TextStem(f, true, s.text);
    ColonStem(g);
    SameHead(f.members, f.key, s.text);
    PrefixOfMore(HeadText(f) + "\"" + EscapeAll(s.text), "\"");
    assert HeadText(f) + "\"" + EscapeAll(s.text) + "\"" == HeadText(g) + DumpString(s.text);
  }

  lemma KeyEnds(show: string -> string, p: Paths, marker: string, r: Reader, next: Reader)
    requires r.b.frames != [] && Inside(r.st, r.b, marker) && Steady(marker) && Apart(p) && Next(show, r, '"') == Some(next)
    requires r.st.mode == Text(true, Plain) && next.b.frames != [] && Inside(next.st, next.b, marker)
    ensures Formed(StopOf(r.st, r.b)) && Formed(StopOf(next.st, next.b))
    ensures Grows(p, Delivery(p, marker, r.st, r.b), Delivery(p, marker, next.st, next.b), [])
  {
    var text := Unescaped(r.b.token);
    InsideFormed(r.st, r.b, marker);
    QuoteEndsToken(show, r, true, text);
    KeyEndStops(r, text);
    hide Inside, Next, Grows, Delivery, Steady, Apart, Unescaped, StopOf, TipAdvances, Keyed, SameContents, HoleFits,
      Formed;
    KeyedLast(r.b, text);
    KeyAdvances(p, r.b.frames[|r.b.frames| - 1], StopOf(r.st, r.b), StopOf(next.st, next.b));
    TipStep(p, marker, r.st, r.b, next.st, next.b);
  }

  lemma KeyEndStops(r: Reader, text: string)
    requires r.b.frames != [] && r.st.mode == Text(true, Plain) && Formed(StopOf(r.st, r.b)) && text == Unescaped(r.b.token)
    ensures r.b.frames[|r.b.frames| - 1].ObjectFrame?
    ensures Keyed(r.b, text).frames != []
    ensures StopOf(r.st, r.b) == Stop(r.b.frames, true, text, "")
    ensures StopOf(State(Colon, r.st.stack), Keyed(r.b, text)) == Stop(Keyed(r.b, text).frames, false, "", ":\"")
  {
    hide Unescaped;
  }

  lemma KeyedLast(b: Build, key: string)
    requires b.frames != [] && b.frames[|b.frames| - 1].ObjectFrame?
    ensures var n := |b.frames| - 1;
            var to := Keyed(b, key).frames;
            && |to| == n + 1 && to[..n] == b.frames[..n] && to[n] == b.frames[n].(key := key)
            && SameContents(b.frames[n], to[n])
  {
  }

  lemma TokenPut(show: string -> string, p: Paths, marker: string, r: Reader, c: char, next: Reader, v: Json)
    requires r.b.frames != [] && Inside(r.st, r.b, marker) && Steady(marker) && Apart(p)
    requires next == Reader(State(After, r.st.stack), Put(r.b, v)) && Inside(next.st, next.b, marker)
    requires (r.st.mode == Text(false, Plain) && v == Str(Unescaped(r.b.token))) || r.st.mode.Literal? || r.st.mode.Number?
    ensures Formed(StopOf(r.st, r.b)) && next.b.frames != [] && Formed(StopOf(next.st, next.b))
    ensures Grows(p, Delivery(p, marker, r.st, r.b), Delivery(p, marker, next.st, next.b), [])
  {
    hide Grows, Inside, Delivery, Steady, Apart, Unescaped;
    PutStep(p, marker, r.st, r.b, v);
  }

  /** The end of a number puts it into the container, and the character then does what it does after a value. */
  lemma NumberPut(show: string -> string, r: Reader, q: string, c: char, marker: string)
    requires r.b.frames != [] && Inside(r.st, r.b, marker) && Tracks(r, q, marker) && Counts(r, q, marker)
    requires Quiet(show, q, marker) && NumberStops(r.st, c) && Step(r.st, c).Some? && marker != ""
    ensures Inside(State(After, r.st.stack), Put(r.b, Num(show(r.b.token))), marker)
  {
    hide Contains, FramesNumbers, FramesStrings, FilledWhere, NumberText, Put, TokenFits, Unseen, NumberStops, Step,
      NumberFits, TopFilled;
    var v := Num(show(r.b.token));
    EndedNumber(r.st, r.b.token, q, c);
    NumberStrings(show(r.b.token));
    PutFrames(r.b, v, marker);
    PutNumbers(r.b, v);
    AfterFills(r.st.stack, Put(r.b, v).frames);
  }

  lemma AfterFills(stack: seq<Container>, fs: seq<Frame>)
    requires TopFilled(fs)
    ensures FilledWhere(State(After, stack), fs)
  {
  }

  lemma NextInside(show: string -> string, p: Paths, marker: string, r: Reader, q: string, x: char, next: Reader)
    requires r.b.frames != [] && Inside(r.st, r.b, marker) && Tracks(r, q, marker) && Counts(r, q, marker) && NotInEscape(r.st.mode)
    requires Steady(marker) && Apart(p) && Quiet(show, q, marker) && NoUnicodeEscapes(q + [x]) && Next(show, r, x) == Some(next)
    requires next.b.frames != [] ==> Inside(next.st, next.b, marker)
    ensures Formed(StopOf(r.st, r.b)) && (next.b.frames != [] ==> Formed(StopOf(next.st, next.b)))
    ensures Grows(p, Delivery(p, marker, r.st, r.b), Delivery(p, marker, next.st, next.b), [])
  {
    PutKeeps(r.b);
    KeyedKeeps(r.b);
    InsideFormed(r.st, r.b, marker);
    hide Inside, Grows, Delivery, Steady, Apart, Quiet, NoUnicodeEscapes, NotInEscape, Counts, Between, Structure,
      StopOf, Put, Keyed, Unescaped, TextStep, Clear, AllUnseen, FilledWhere, TokenFits;
    match r.st.mode
    case Text(key, part) =>
      if !(part.Plain? && x == '"') {
        InTextGrows(show, p, marker, r, q, x, next);
      } else if key {
        KeyEnds(show, p, marker, r, next);
      } else {
        QuoteEndsToken(show, r, false, Unescaped(r.b.token));
        TokenPut(show, p, marker, r, x, next, Str(Unescaped(r.b.token)));
      }
    case Literal(rest) =>
      if |rest| <= 1 {
        TokenPut(show, p, marker, r, x, next, LiteralValue(r.b.token));
      } else {
        WaitingSame(p, marker, r.st, r.b, next.st, next.b);
      }
    case Number(number) =>
      if NumberStep(number, x).Some? {
        WaitingSame(p, marker, r.st, r.b, next.st, next.b);
      } else {
        NumberNextGrows(show, p, marker, r, q, x, next);
      }
    case _ => StructureGrows(p, marker, r.st, r.b, x, next.st);
  }

  lemma PutKeeps(b: Build)
    requires b.frames != []
    ensures forall v :: |Put(b, v).frames| == |b.frames|
  {
  }

  lemma KeyedKeeps(b: Build)
    requires b.frames != []
    ensures forall key :: |Keyed(b, key).frames| == |b.frames|
  {
  }

  /** Inside a literal or a number nothing more is delivered. */
  lemma WaitingSame(p: Paths, marker: string, st: State, b: Build, next: State, after: Build)
    requires b.frames != [] && after.frames == b.frames && Formed(StopOf(st, b))
    requires (st.mode.Literal? && next.mode.Literal?) || (st.mode.Number? && next.mode.Number?)
    ensures Formed(StopOf(next, after))
    ensures Grows(p, Delivery(p, marker, st, b), Delivery(p, marker, next, after), [])
  {
    hide DeliveredAt, Grows;
    assert StopOf(next, after) == StopOf(st, b);
    GrowsItself(p, Delivery(p, marker, st, b), []);
  }

  lemma NumberNextGrows(show: string -> string, p: Paths, marker: string, r: Reader, q: string, x: char, next: Reader)
    requires r.b.frames != [] && Inside(r.st, r.b, marker) && Tracks(r, q, marker) && Counts(r, q, marker)
    requires Steady(marker) && Apart(p) && Quiet(show, q, marker) && Next(show, r, x) == Some(next) && NumberStops(r.st, x)
    requires next.b.frames != [] ==> Inside(next.st, next.b, marker)
    ensures Formed(StopOf(r.st, r.b)) && (next.b.frames != [] ==> Formed(StopOf(next.st, next.b)))
    ensures Grows(p, Delivery(p, marker, r.st, r.b), Delivery(p, marker, next.st, next.b), [])
  {
    var v := Num(show(r.b.token));
    var st, b := State(After, r.st.stack), Put(r.b, v);
    NumberEnd(show, r, x, next);
    PutKeeps(r.b);
    SteadyNotBlank(marker);
    hide Inside, Grows, Delivery, Steady, Apart, Quiet, Counts, Between, Structure, StopOf, Put, Tracks, Next,
      NumberStops;
    NumberPut(show, r, q, x, marker);
    TokenPut(show, p, marker, r, x, Reader(st, b), v);
    StructureGrows(p, marker, st, b, x, next.st);
    GrowsThrough(p, Delivery(p, marker, r.st, r.b), Delivery(p, marker, st, b), Delivery(p, marker, next.st, next.b), []);
  }

  lemma SteadyNotBlank(marker: string)
    requires Steady(marker)
    ensures marker != ""
  {
  }

  lemma NumberEnd(show: string -> string, r: Reader, x: char, next: Reader)
    requires Next(show, r, x) == Some(next) && NumberStops(r.st, x)
    ensures r.st.mode.Number? && Step(r.st, x).Some?
    ensures Between(State(After, r.st.stack), x) == Some(next.st) && next.b == Structure(Put(r.b, Num(show(r.b.token))), x)
    ensures BetweenTokens(State(After, r.st.stack))
  {
    hide Between, Structure, Put;
  }

  /** A container has been read, or is being read. */
  predicate Begun(r: Reader) {
    r.b.frames == [] ==> r.st == State(After, [])
  }

  ghost function ShownAt(show: string -> string, p: Paths, marker: string, q: string): Option<Json>
    requires Live(q)
  {
    var r := ReaderOf(show, q);
    if r.b.frames != [] && !Formed(StopOf(r.st, r.b)) then None else Delivery(p, marker, r.st, r.b)
  }

  lemma NextGrows(show: string -> string, p: Paths, marker: string, q: string, x: char)
    requires Live(q) && Live(q + [x]) && Fresh(show, q, marker) && Fresh(show, q + [x], marker) && Steady(marker) && Apart(p)
    requires Begun(ReaderOf(show, q))
    ensures Begun(ReaderOf(show, q + [x]))
    ensures Grows(p, ShownAt(show, p, marker, q), ShownAt(show, p, marker, q + [x]), [])
  {
    var r, next := ReaderOf(show, q), ReaderOf(show, q + [x]);
    ReaderNext(show, q, x);
    ReaderInside(show, q, marker);
    ReaderInside(show, q + [x], marker);
    BeginsOnce(show, r, x, next, q + [x], marker);
    if r.b.frames == [] {
      FinishedNext(show, r, x, next);
      GrowsItself(p, ShownAt(show, p, marker, q), []);
    } else {
      FreshParts(show, q, marker);
      FreshParts(show, q + [x], marker);
      hide Inside, Grows, Delivery, Steady, Apart, Quiet, NoUnicodeEscapes, NotInEscape, Counts, Tracks, ReaderOf,
        Next, Fresh, Live, StopOf;
      NextInside(show, p, marker, r, q, x, next);
    }
  }

  lemma FreshParts(show: string -> string, s: string, marker: string)
    requires Fresh(show, s, marker)
    ensures Quiet(show, s, marker) && NoUnicodeEscapes(s)
  {
  }

  lemma FinishedNext(show: string -> string, r: Reader, x: char, next: Reader)
    requires r.b.frames == [] && r.st == State(After, []) && Next(show, r, x) == Some(next)
    ensures next == r
  {
  }

  lemma BeginsOnce(show: string -> string, r: Reader, x: char, next: Reader, q: string, marker: string)
    requires Begun(r) && Next(show, r, x) == Some(next) && Kinds(r.b.frames) == r.st.stack && Tracks(next, q, marker)
    ensures Begun(next)
  {
    hide Counts, TokenFits, AllUnseen, FilledWhere, TextStep, NumberStep, Kinds;
    KindsMeet(r.b.frames);
    KindsMeet(next.b.frames);
    if r.b.frames == [] {
      FinishedNext(show, r, x, next);
    } else if next.b.frames == [] {
      LastCloses(r.st, x, next.st);
    }
  }

  lemma KindsMeet(fs: seq<Frame>)
    ensures |Kinds(fs)| == |fs|
  {
  }

  /** The stack becomes empty only behind a bracket. */
  lemma LastCloses(st: State, x: char, next: State)
    requires Step(st, x) == Some(next) && st.stack != [] && next.stack == []
    ensures next == State(After, [])
  {
    match st.mode
    case Text(_, _) =>
    case Literal(_) =>
    case Number(number) => LastBetween(st.(mode := After), x, next);
    case _ => LastBetween(st, x, next);
  }

  lemma LastBetween(st: State, x: char, next: State)
    requires st.stack != [] && next.stack == []
    ensures Between(st, x) == Some(next) ==> next == State(After, [])
  {
  }

  /** What is delivered of a text goes on, while no error is met. */
  lemma {:induction false} TextGrows(show: string -> string, p: Paths, marker: string, s: string, e: string)
    requires s <= e && Live(s) && Live(e) && Fresh(show, e, marker) && Steady(marker) && Apart(p)
    requires Begun(ReaderOf(show, s))
    ensures Begun(ReaderOf(show, e))
    ensures Grows(p, ShownAt(show, p, marker, s), ShownAt(show, p, marker, e), [])
    decreases |e|
  {
    hide Begun, Live, ReaderOf, ShownAt, Grows, Fresh, Steady, Apart;
    if s == e {
      GrowsItself(p, ShownAt(show, p, marker, s), []);
    } else {
      var front, x := e[..|e| - 1], e[|e| - 1];
      assert e == front + [x];
      LivePrefix(e, |front|);
      FreshPrefix(show, e, marker, |front|);
      TextGrows(show, p, marker, s, front);
      NextGrows(show, p, marker, front, x);
      GrowsThrough(p, ShownAt(show, p, marker, s), ShownAt(show, p, marker, front), ShownAt(show, p, marker, e), []);
    }
  }
}

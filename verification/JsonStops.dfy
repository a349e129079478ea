/**
 Text behind a JSON text (common/json-partial.cpp, common/chat-parser.cpp): where the parser stops
 and what it makes of the part in front.
 */
module JsonStops {
  import opened Base
  import opened JsonMachine
  import opened JsonErrorLocator
  import opened JsonShape
  import opened JsonParse

  /** The text stopped inside a string, a literal or a number that lacks digits. */
  predicate InsideToken(p: string)
    requires Live(p)
  {
    var mode := StateOf(p).mode;
    mode.Text? || mode.Literal? || (mode.Number? && !NumberComplete(mode.number))
  }

  /** The first characters of strings, of true, false and null, and of numbers. */
  const TOKEN_STARTS := "\"tfn-0123456789"

  /** A scanner that has read `c` as the start of a token takes at least one more character, or fails at it. */
  predicate ScansOn(c: char, rest: string) {
    || c in "\"tfn-"
    || (rest != "" && ((c == '0' && rest[0] in ".eE") || (c in "123456789" && rest[0] in "0123456789.eE")))
  }

  /** A token that stands where the machine refuses it, with what is behind it. */
  ghost predicate Stray(w: string, rest: string) {
    && w != "" && w[0] in TOKEN_STARTS && Live(w)
    && (Accepts(w) ==> w[|w| - 1] !in BLANKS && (rest == "" || rest[0] in BLANKS || !Live(w + [rest[0]])))
    && (!Accepts(w) ==> rest == "" || !Live(w + [rest[0]]))
  }

  /** The parser reads `p` and refuses the character behind it. */
  ghost predicate StopsBehind(p: string, c: char) {
    Live(p) && !Live(p + [c])
  }

  // ----- where the machine stops

  lemma Reaches(p: string)
    requires Live(p)
    ensures p[..|p|] == p && Run(START, p[..|p|]) == Some(StateOf(p))
  {
    assert p[..|p|] == p;
  }

  lemma StopsAt(p: string, c: char, rest: string)
    requires StopsBehind(p, c)
    ensures var s := p + [c] + rest;
            && s[..|p|] == p && !Accepts(s)
            && FinalElements(s) == ElementsOf(Settle(StateOf(p)))
            && ErrorPosition(s) == RefusalPosition(StateOf(p), s, |p|)
  {
    hide Accepts, Elements, ErrorPosition, FinalElements, RefusalPosition, Run, Step;
    var s := p + [c] + rest;
    assert s[..|p|] == p;
    RunSnoc(START, p, c);
    StopsHere(s, |p|, StateOf(p));
  }

  lemma NotLiveBeyond(p: string, c: char, rest: string, n: nat)
    requires StopsBehind(p, c) && |p| < n <= |p + [c] + rest|
    ensures !Live((p + [c] + rest)[..n])
  {
    hide Run;
    var s := p + [c] + rest;
    assert s[..n][..|p| + 1] == p + [c];
    if Live(s[..n]) {
      LivePrefix(s[..n], |p| + 1);
    }
  }

  /** Which characters start a token, and what follows them. */
  lemma TokenStarts(c: char)
    ensures var next := StartValue(START, c);
            (c in TOKEN_STARTS <==> next.Some? && InToken(next.value))
    ensures c in TOKEN_STARTS ==> StartValue(START, c) == Step(START, c) && Alone(StartValue(START, c).value)
  {
  }

  lemma RefusedAt(st: State, s: string, n: nat)
    requires n < |s| && !InToken(Settle(st))
    ensures var at := RefusalPosition(st, s, n);
            at >= n && (at == n <==> !ScansOn(s[n], s[n + 1..]))
  {
    hide Step, TextStep, TokenStop;
    var next := StartValue(START, s[n]);
    if next.Some? && InToken(next.value) {
      TokenStopBeyond(next.value, s, n + 1);
    }
  }

  lemma AcceptedSettles(t: string)
    requires Accepts(t)
    ensures !InToken(Settle(StateOf(t))) && Settle(StateOf(t)).stack == []
  {
  }

  // ----- how far the scanner reads

  lemma {:induction false} TokenStopFrom(st: State, s: string, i: nat)
    requires 1 <= i <= |s|
    ensures TokenStop(st, s, i) >= i - 1
    decreases |s| - i
  {
    hide Step, NumberStep, Settle;
    if InToken(st) && i < |s| && Step(st, s[i]).Some? {
      TokenStopFrom(Step(st, s[i]).value, s, i + 1);
    }
  }

  lemma TokenStopBeyond(st: State, s: string, i: nat)
    requires 1 <= i <= |s| && InToken(st)
    ensures TokenStop(st, s, i) >= i - 1
    ensures TokenStop(st, s, i) == i - 1 <==>
              Settle(st) != st && (i == |s| || NumberStep(st.mode.number, s[i]).None?)
  {
    hide Step, NumberStep, Settle;
    if i < |s| && Step(st, s[i]).Some? {
      TokenStopFrom(Step(st, s[i]).value, s, i + 1);
    }
  }

  /** The machine is in a value that stands alone, or behind it. */
  predicate Alone(st: State) {
    st.stack == [] && (InToken(st) || st.mode.After?) && (st.mode.Text? ==> !st.mode.key)
  }

  lemma AloneStep(st: State, c: char)
    requires Alone(st) && Step(st, c).Some?
    ensures Alone(Step(st, c).value)
    ensures st.mode.After? ==> c in BLANKS && Step(st, c).value == st
    ensures Settle(st) != st && NumberStep(st.mode.number, c).None? ==> c in BLANKS && Step(st, c).value.mode.After?
  {
    hide TextStep;
  }

  /** Behind a value that stands alone only blanks are read. */
  lemma {:induction false} BlanksBehind(st: State, s: string)
    requires st == State(After, []) && Run(st, s).Some?
    ensures Run(st, s).value == st && (s != [] ==> s[|s| - 1] in BLANKS)
    decreases |s|
  {
    hide Step;
    if s != [] {
      AloneStep(st, s[0]);
      BlanksBehind(st, s[1..]);
    }
  }

  /** The scanner follows the machine through a token; blanks do not belong to it. */
  lemma {:induction false} TokenReads(st: State, s: string, i: nat, j: nat, end: State)
    requires 1 <= i <= j <= |s| && Alone(st) && InToken(st)
    requires Run(st, s[i..j]) == Some(end)
    requires Accepting(end) && i < j ==> s[j - 1] !in BLANKS
    ensures end.stack == [] && (InToken(end) || end == State(After, []))
    ensures TokenStop(st, s, i) == if InToken(end) then TokenStop(end, s, j) else j - 1
    decreases j - i
  {
    hide Step, NumberStep, Settle;
    if i < j {
      var next := Step(st, s[i]).value;
      assert s[i..j][0] == s[i] && s[i..j][1..] == s[i + 1..j];
      AloneStep(st, s[i]);
      if InToken(next) {
        TokenReads(next, s, i + 1, j, end);
      } else {
        BlanksBehind(next, s[i + 1..j]);
      }
    }
  }

  lemma StrayStops(p: string, w: string, rest: string)
    requires Stray(w, rest) && StopsBehind(p, w[0]) && !InsideToken(p)
    ensures ErrorPosition(p + w + rest) == if Accepts(w) then |p + w| - 1 else |p + w|
  {
    hide ElementsOf, ErrorPosition, FinalElements, NumberStep, RefusalPosition, Run, StartValue, Step, TokenStop;
    var s := p + w + rest;
    assert w == [w[0]] + w[1..];
    assert s == p + [w[0]] + (w[1..] + rest);
    StopsAt(p, w[0], w[1..] + rest);
    TokenStarts(w[0]);
    var next := StartValue(START, w[0]).value;
    var j := |p + w|;
    assert s[|p| + 1..j] == w[1..];
    StartRuns(w);
    TokenReads(next, s, |p| + 1, j, StateOf(w));
    if rest != "" {
      RunSnoc(START, w, rest[0]);
      assert s[j] == rest[0];
    }
    ScannerEnds(StateOf(w), s, j);
    RefusedToken(StateOf(p), s, |p|);
  }

  lemma StartRuns(w: string)
    requires w != "" && w[0] in TOKEN_STARTS && Live(w)
    ensures Alone(StartValue(START, w[0]).value) && InToken(StartValue(START, w[0]).value)
    ensures Run(StartValue(START, w[0]).value, w[1..]) == Some(StateOf(w))
  {
    hide Step;
    TokenStarts(w[0]);
  }

  /** What the scanner does where the token has been read. */
  lemma ScannerEnds(end: State, s: string, j: nat)
    requires 1 <= j <= |s| && end.stack == []
    requires j < |s| ==> Step(end, s[j]).None? || (Accepting(end) && s[j] in BLANKS)
    ensures InToken(end) ==> TokenStop(end, s, j) == if Accepting(end) then j - 1 else j
  {
    hide TextStep;
  }

  lemma RefusedToken(st: State, s: string, n: nat)
    requires n < |s| && !InToken(Settle(st)) && s[n] in TOKEN_STARTS
    ensures StartValue(START, s[n]).Some?
    ensures RefusalPosition(st, s, n) == TokenStop(StartValue(START, s[n]).value, s, n + 1)
  {
    hide TokenStop, Settle;
    TokenStarts(s[n]);
  }

  /** Up to a refused character the outcome is that of the text in front of it. */
  lemma TextBehindIgnored(p: string, c: char, rest: string, marker: string)
    requires StopsBehind(p, c)
    requires InsideToken(p) || c !in TOKEN_STARTS
    ensures Parsed(p + [c] + rest, marker) == Parsed(p, marker)
  {
    hide Accepts, Accepting, Closing, Completed, Containers, Elements, ErrorPosition, FinalElements, LastSolid, Run, Step;
    StopsAt(p, c, rest);
    TokenStarts(c);
    Reaches(p);
    assert (p + [c] + rest)[..|p|] == p && p[..|p|] == p;
    StopsHere(p, |p|, StateOf(p));
  }

  /**
   A JSON text with something behind it: the text is taken and what is behind it is left, unless
   the scanner reads on in what is behind; then nothing is.
   */
  lemma JsonThenText(t: string, c: char, rest: string, marker: string)
    requires Accepts(t) && !Live(t + [c])
    ensures Parsed(t + [c] + rest, marker) == if ScansOn(c, rest) then Refused else Whole(t, |t|)
  {
    hide Accepting, Closing, Completed, Containers, Elements, ErrorPosition, FinalElements, Run, Step;
    var s := t + [c] + rest;
    var st := StateOf(t);
    StopsAt(t, c, rest);
    AcceptedSettles(t);
    RefusedAt(st, s, |t|);
    if ErrorPosition(s) > |t| {
      NotLiveBeyond(t, c, rest, ErrorPosition(s));
    } else {
      assert s[..|t|] == t;
    }
  }

  /** Behind a closing bracket or quote whatever is not blank is refused. */
  lemma ClosedEnds(t: string, c: char)
    requires Accepts(t) && t != "" && t[|t| - 1] in "}]\"" && c !in BLANKS
    ensures !Live(t + [c])
  {
    hide Run;
    RunSnoc(START, t, c);
    var n := |t| - 1;
    assert t == t[..n] + [t[n]];
    RunSnoc(START, t[..n], t[n]);
    NoNumberAfter(StateOf(t[..n]), t[n]);
  }

  lemma NoNumberAfter(st: State, c: char)
    requires c in "}]\""
    ensures Step(st, c).Some? ==> !Step(st, c).value.mode.Number?
  {
    hide TextStep;
    if st.mode.Number? {
      assert NumberStep(st.mode.number, c).None?;
    }
  }

  /** A stray token is read to its end, or to the character that breaks it. */
  lemma StrayToken(p: string, w: string, rest: string, marker: string)
    requires Stray(w, rest) && StopsBehind(p, w[0]) && !InsideToken(p)
    ensures var out := Parsed(p + w + rest, marker);
            var stop := if Accepts(w) then |p + w| - 1 else |p + w|;
            && (Accepts(p) ==> out == if stop == |p| then Whole(p, |p|) else Refused)
            && (!Accepts(p) ==> !out.Whole?)
            && (out.Partial? ==> Open(p) && out.consumed == stop)
            && (Open(p) && marker != "" ==> out.Partial? || out.Raised?)
  {
    hide Accepts, Accepting, ElementsOf, ErrorPosition, FinalElements, Parsed, Run, Step;
    var s := p + w + rest;
    var stop := if Accepts(w) then |p + w| - 1 else |p + w|;
    assert w == [w[0]] + w[1..];
    assert s == p + [w[0]] + (w[1..] + rest);
    StopsAt(p, w[0], w[1..] + rest);
    StrayStops(p, w, rest);
    if stop > |p| {
      NotLiveBeyond(p, w[0], w[1..] + rest, stop);
    }
    LiveStack(p);
    LiveStack(s[..stop]);
    ParsedUpTo(s, marker);
  }

  lemma LiveStack(p: string)
    ensures Accepts(p) ==> Live(p)
    ensures Live(p) ==>
              && (Accepts(p) ==> StateOf(p).stack == [])
              && (ElementsOf(Settle(StateOf(p))) == [] <==> StateOf(p).stack == [])
  {
    hide Run, Elements;
  }

  /** The outcome by the text up to the error and what is open there. */
  lemma ParsedUpTo(s: string, marker: string)
    requires !Accepts(s)
    ensures var out := Parsed(s, marker);
            var at := ErrorPosition(s);
            && (Accepts(s[..at]) ==> out == Whole(s[..at], at))
            && (!Accepts(s[..at]) ==>
                  && !out.Whole?
                  && (marker == "" || FinalElements(s) == [] <==> out.Refused?)
                  && (out.Partial? ==> out.consumed == at))
  {
    hide Accepts, Closing, Completed, Containers, ErrorPosition, FinalElements, LastSolid;
  }
}

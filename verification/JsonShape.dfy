/**
 What the last characters of a live text say about the state of the JSON machine, and where
 cutting the text back lands. Completing a truncated text relies on both.
 */
module JsonShape {
  import opened Base
  import opened JsonMachine

  /** The last character that is not a JSON blank, as a string of length at most one. */
  function LastSolid(s: string): (r: string)
    ensures |r| <= 1
    ensures r == [] <==> forall k :: 0 <= k < |s| ==> s[k] in BLANKS
  {
    var i := LastIndexNotOf(s, BLANKS);
    if i.None? then [] else [s[i.value]]
  }

  lemma LastSolidSnoc(s: string, c: char)
    ensures LastSolid(s + [c]) == if c in BLANKS then LastSolid(s) else [c]
  {
    assert (s + [c])[..|s|] == s;
  }

  predicate EndsWith(s: string, chars: string) {
    s != [] && s[|s| - 1] in chars
  }

  const DIGITS := "0123456789"
  const NUMBER_CHARS := "0123456789.eE+-"

  /** The characters after which a value of the container starts. */
  function Openers(container: Container): string {
    if container.InObject? then ":" else "[,"
  }

  predicate AwaitsValue(mode: Mode) {
    mode.Value? || mode.ArrayFirst?
  }

  /** The state reached by the text up to and including its last opener; None when there is none. */
  function CutState(s: string, container: Container): Option<State> {
    var p := LastIndexOf(s, Openers(container));
    if p.None? then None else Run(START, s[..p.value + 1])
  }

  /** Cutting back to the last opener lands where a value of the innermost open container starts. */
  predicate CutLands(s: string, container: Container, stack: seq<Container>) {
    var st := CutState(s, container);
    st.Some? && AwaitsValue(st.value.mode) && st.value.stack == stack
  }

  lemma LastIndexSnoc(s: string, c: char, chars: string)
    ensures LastIndexOf(s + [c], chars) == if c in chars then Some(|s|) else LastIndexOf(s, chars)
  {
    assert (s + [c])[..|s|] == s;
  }

  lemma CutLandsSnoc(s: string, c: char, container: Container, stack: seq<Container>)
    requires c !in Openers(container)
    ensures CutLands(s + [c], container, stack) == CutLands(s, container, stack)
  {
    hide Run, LastIndexOf, Openers, AwaitsValue;
    LastIndexSnoc(s, c, Openers(container));
    var p := LastIndexOf(s, Openers(container));
    if p.Some? {
      assert (s + [c])[..p.value + 1] == s[..p.value + 1];
    }
  }

  lemma CutLandsHere(s: string, c: char, container: Container, stack: seq<Container>)
    requires c in Openers(container)
    requires Live(s + [c]) && AwaitsValue(StateOf(s + [c]).mode) && StateOf(s + [c]).stack == stack
    ensures CutLands(s + [c], container, stack)
  {
    LastIndexSnoc(s, c, Openers(container));
    assert (s + [c])[..|s| + 1] == s + [c];
  }

  predicate LiteralTail(rest: string) {
    rest in ["rue", "ue", "e", "alse", "lse", "se", "ull", "ll", "l"]
  }

  /** Modes that only arise in the given innermost container. */
  predicate FitsTop(mode: Mode, stack: seq<Container>) {
    && (mode.ArrayFirst? ==> stack != [] && Top(stack).InArray?)
    && (mode.ObjectFirst? || mode.ObjectKey? || mode.Colon? || (mode.Text? && mode.key) ==>
          stack != [] && Top(stack).InObject?)
    && (mode.Literal? ==> LiteralTail(mode.rest))
    && (mode.Text? && mode.part.Utf8? ==>
          mode.part.rest != [] && forall r :: r in mode.part.rest ==> 0x80 <= r.0)
  }

  /** What the text looks like just before the place where it stopped. */
  predicate Tail(s: string, st: State) {
    match st.mode
    case Value => st.stack != [] ==> LastSolid(s) == if Top(st.stack).InObject? then ":" else ","
    case ArrayFirst => LastSolid(s) == "["
    case ObjectFirst => LastSolid(s) == "{"
    case ObjectKey => LastSolid(s) == ","
    case Text(_, part) => part.Backslash? ==> EndsWith(s, "\\")
    case Number(p) => EndsWith(s, NUMBER_CHARS) && (NumberComplete(p) ==> EndsWith(s, DIGITS))
    case After => LastSolid(s) != "{" && (EndsWith(s, BLANKS) || EndsWith(s, "\"}]le"))
    case _ => true
  }

  /** The states in which the text stopped inside a value that cutting back removes. */
  predicate Removable(s: string, st: State) {
    AwaitsValue(st.mode) || st.mode.Number? || st.mode.Literal? || (st.mode.After? && EndsWith(s, "e"))
  }

  predicate Shape(s: string, st: State) {
    && FitsTop(st.mode, st.stack)
    && Tail(s, st)
    && (Removable(s, st) && st.stack != [] ==> CutLands(s, Top(st.stack), st.stack))
  }

  lemma FitsTopText(st: State, c: char, next: State)
    requires st.mode.Text? && FitsTop(st.mode, st.stack) && Step(st, c) == Some(next)
    ensures FitsTop(next.mode, next.stack)
  {
    hide Between;
  }

  lemma FitsTopBetween(st: State, c: char, next: State)
    requires FitsTop(st.mode, st.stack) && !st.mode.Text? && Between(st, c) == Some(next)
    ensures FitsTop(next.mode, next.stack)
  {
  }

  lemma FitsTopStep(st: State, c: char, next: State)
    requires FitsTop(st.mode, st.stack) && Step(st, c) == Some(next)
    ensures FitsTop(next.mode, next.stack)
  {
    match st.mode
    case Number(p) =>
      if NumberStep(p, c).None? {
        FitsTopBetween(st.(mode := After), c, next);
      }
    case Literal(_) =>
    case Text(_, _) =>
      FitsTopText(st, c, next);
    case _ =>
      FitsTopBetween(st, c, next);
  }

  lemma TailStepInToken(s: string, st: State, c: char, next: State)
    requires st.mode.Text? || st.mode.Literal?
    requires FitsTop(st.mode, st.stack) && Step(st, c) == Some(next)
    ensures Tail(s + [c], next)
  {
    LastSolidSnoc(s, c);
  }

  lemma TailStepInNumber(s: string, st: State, c: char, next: State)
    requires st.mode.Number? && NumberStep(st.mode.number, c).Some?
    requires Step(st, c) == Some(next)
    ensures Tail(s + [c], next)
  {
    hide Between, LastSolid;
  }

  lemma TailStepBlank(s: string, st: State, c: char)
    requires if st.mode.After? then LastSolid(s) != "{" else Tail(s, st)
    requires c in BLANKS && !st.mode.Text? && !st.mode.Number?
    ensures Tail(s + [c], st)
  {
    LastSolidSnoc(s, c);
  }

  lemma TailStepOpening(s: string, st: State, c: char, next: State)
    requires c !in BLANKS && StartValue(st, c) == Some(next)
    ensures Tail(s + [c], next)
  {
    LastSolidSnoc(s, c);
  }

  lemma TailStepBetween(s: string, st: State, c: char, next: State)
    requires FitsTop(st.mode, st.stack) && !st.mode.Text? && !st.mode.Number? && !st.mode.Literal?
    requires if st.mode.After? then LastSolid(s) != "{" else Tail(s, st)
    requires Between(st, c) == Some(next)
    ensures Tail(s + [c], next)
  {
    if c in BLANKS {
      TailStepBlank(s, st, c);
    } else {
      if AwaitsValue(st.mode) && StartValue(st, c) == Some(next) {
        TailStepOpening(s, st, c, next);
      } else {
        LastSolidSnoc(s, c);
      }
    }
  }

  lemma TailStep(s: string, st: State, c: char, next: State)
    requires FitsTop(st.mode, st.stack) && Tail(s, st) && Step(st, c) == Some(next)
    ensures Tail(s + [c], next)
  {
    match st.mode
    case Number(p) =>
      if NumberStep(p, c).Some? {
        TailStepInNumber(s, st, c, next);
      } else {
        assert LastSolid(s) == [s[|s| - 1]];
        TailStepBetween(s, st.(mode := After), c, next);
      }
    case Literal(_) => TailStepInToken(s, st, c, next);
    case Text(_, _) => TailStepInToken(s, st, c, next);
    case _ => TailStepBetween(s, st, c, next);
  }

  lemma ShapeStep(s: string, st: State, c: char, next: State)
    requires Run(START, s) == Some(st) && Shape(s, st)
    requires Step(st, c) == Some(next)
    ensures Run(START, s + [c]) == Some(next) && Shape(s + [c], next)
  {
    RunSnoc(START, s, c);
    FitsTopStep(st, c, next);
    TailStep(s, st, c, next);
    if Removable(s + [c], next) && next.stack != [] {
      CutStep(s, st, c, next);
    }
  }

  lemma ValueStarts(st: State, c: char, next: State)
    requires !st.mode.Number? && !st.mode.Literal?
    requires FitsTop(st.mode, st.stack) && Between(st, c) == Some(next) && next.stack != []
    requires Removable([c], next)
    ensures c in Openers(Top(next.stack)) ==> AwaitsValue(next.mode)
    ensures c !in Openers(Top(next.stack)) ==> next.stack == st.stack && AwaitsValue(st.mode)
  {
  }

  /** A value under way starts at an opener, and until it ends no opener is read. */
  lemma ValueUnderWay(st: State, c: char, next: State)
    requires FitsTop(st.mode, st.stack) && Step(st, c) == Some(next) && next.stack != []
    requires Removable([c], next)
    ensures c in Openers(Top(next.stack)) ==> AwaitsValue(next.mode)
    ensures c !in Openers(Top(next.stack)) ==>
              next.stack == st.stack && (AwaitsValue(st.mode) || st.mode.Number? || st.mode.Literal?)
  {
    match st.mode
    case Number(p) =>
      if NumberStep(p, c).None? {
        ValueStarts(st.(mode := After), c, next);
      }
    case Literal(_) =>
    case Text(_, _) =>
    case _ =>
      ValueStarts(st, c, next);
  }

  lemma CutStep(s: string, st: State, c: char, next: State)
    requires Run(START, s) == Some(st) && Shape(s, st)
    requires Step(st, c) == Some(next) && Run(START, s + [c]) == Some(next)
    requires Removable(s + [c], next) && next.stack != []
    ensures CutLands(s + [c], Top(next.stack), next.stack)
  {
    var top := Top(next.stack);
    ValueUnderWay(st, c, next);
    if c in Openers(top) {
      CutLandsHere(s, c, top, next.stack);
    } else {
      CutLandsSnoc(s, c, top, next.stack);
    }
  }

  lemma {:induction false} ShapeHolds(s: string)
    requires Live(s)
    ensures Shape(s, StateOf(s))
  {
    if s != [] {
      var front, c := s[..|s| - 1], s[|s| - 1];
      assert s == front + [c];
      RunSnoc(START, front, c);
      ShapeHolds(front);
      ShapeStep(front, StateOf(front), c, StateOf(s));
    }
  }
}

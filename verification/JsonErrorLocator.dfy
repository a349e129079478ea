/**
 The SAX listener that finds out where the parser stops and what is open there
 (common/json-partial.cpp), and the position the JSON library reports for an error.
 */
module JsonErrorLocator {
  import opened Base
  import opened JsonMachine
  import opened JsonShape

  // ----- the stack of the error locator

  /** What the SAX listener stacks; a key stays until its value is complete. */
  datatype Element = ObjectElement | KeyElement | ArrayElement

  /** A key of the innermost object has been read and its value is not complete. */
  predicate KeyOpen(mode: Mode) {
    mode.Colon? || mode.Value? || mode.Literal? || mode.Number? || (mode.Text? && !mode.key)
  }

  predicate KeysOnlyAboveObjects(elements: seq<Element>) {
    forall i :: 0 <= i < |elements| && elements[i].KeyElement? ==> i > 0 && elements[i - 1].ObjectElement?
  }

  /** The open containers an element stack stands for. */
  function Containers(elements: seq<Element>): seq<Container> {
    if elements == [] then []
    else
      var below := Containers(elements[..|elements| - 1]);
      match elements[|elements| - 1]
      case ObjectElement => below + [InObject]
      case ArrayElement => below + [InArray]
      case KeyElement => below
  }

  function TopElement(container: Container, keyOpen: bool): Element {
    if container.InArray? then ArrayElement else if keyOpen then KeyElement else ObjectElement
  }

  function Elements(stack: seq<Container>, keyOpen: bool): (r: seq<Element>)
    ensures r == [] <==> stack == []
    ensures stack != [] ==> r[|r| - 1] == TopElement(Top(stack), keyOpen)
    ensures KeysOnlyAboveObjects(r)
  {
    if stack == [] then []
    else
      var below := Elements(Pop(stack), true);
      if Top(stack).InArray? then below + [ArrayElement]
      else if keyOpen then below + [ObjectElement, KeyElement]
      else below + [ObjectElement]
  }

  /** The end of input completes a number that may be complete. */
  function Settle(st: State): State {
    if st.mode.Number? && NumberComplete(st.mode.number) then st.(mode := After) else st
  }

  function ElementsOf(st: State): seq<Element> {
    Elements(st.stack, KeyOpen(st.mode))
  }

  lemma ContainersAbove(below: seq<Element>, element: Element)
    ensures Containers(below + [element]) == match element
                                             case ObjectElement => Containers(below) + [InObject]
                                             case ArrayElement => Containers(below) + [InArray]
                                             case KeyElement => Containers(below)
  {
    assert (below + [element])[..|below|] == below;
  }

  /** Without its keys the stack of the error locator is the stack of open containers. */
  lemma {:induction false} ContainersOfElements(stack: seq<Container>, keyOpen: bool)
    ensures Containers(Elements(stack, keyOpen)) == stack
  {
    if stack != [] {
      var below := Elements(Pop(stack), true);
      ContainersOfElements(Pop(stack), true);
      assert stack == Pop(stack) + [Top(stack)];
      if Top(stack).InArray? {
        ContainersAbove(below, ArrayElement);
      } else {
        ContainersAbove(below, ObjectElement);
        if keyOpen {
          ContainersAbove(below + [ObjectElement], KeyElement);
          assert below + [ObjectElement, KeyElement] == below + [ObjectElement] + [KeyElement];
        }
      }
    }
  }

  // ----- where the library reports an error

  /** The length of the longest live prefix. */
  function LiveLength(st: State, s: string): (n: nat)
    ensures n <= |s| && Run(st, s[..n]).Some?
    ensures n < |s| ==> Step(Run(st, s[..n]).value, s[n]).None?
    decreases |s|
  {
    if s == [] || Step(st, s[0]).None? then 0
    else
      var n := LiveLength(Step(st, s[0]).value, s[1..]);
      assert s[..n + 1][0] == s[0] && s[..n + 1][1..] == s[1..][..n];
      n + 1
  }

  predicate InToken(st: State) {
    st.mode.Text? || st.mode.Literal? || st.mode.Number?
  }

  /**
   The position (characters read, minus one) at which the scanner stops when the parser rejects a
   string, literal or number token: `st` has read the token up to index `i`.
   */
  function TokenStop(st: State, s: string, i: nat): (r: nat)
    requires 1 <= i <= |s|
    ensures r <= |s|
    decreases |s| - i
  {
    if !InToken(st) then i - 1
    else if i == |s| then (if Settle(st) != st then i - 1 else i)
    else if Settle(st) != st && NumberStep(st.mode.number, s[i]).None? then i - 1
    else match Step(st, s[i])
      case None => i
      case Some(next) => TokenStop(next, s, i + 1)
  }

  /** Where the machine refuses character `n` the scanner may first finish the token that starts there. */
  function RefusalPosition(st: State, s: string, n: nat): (r: nat)
    requires n < |s|
    ensures r <= |s|
  {
    if InToken(Settle(st)) then n
    else match StartValue(START, s[n])
      case None => n
      case Some(next) => if InToken(next) then TokenStop(next, s, n + 1) else n
  }

  /** The position of the first error in a text that is not accepted; a truncated text fails at its end. */
  function ErrorPosition(s: string): (r: nat)
    ensures r <= |s|
    ensures Live(s) ==> r == |s|
  {
    var n := LiveLength(START, s);
    LiveToTheEnd(s);
    if n == |s| then n else RefusalPosition(StateOf(s[..n]), s, n)
  }

  lemma LiveToTheEnd(s: string)
    ensures Live(s) ==> LiveLength(START, s) == |s|
  {
    hide Run, Step;
    var n := LiveLength(START, s);
    if Live(s) && n < |s| {
      LivePrefix(s, n + 1);
      assert s[..n + 1] == s[..n] + [s[n]];
      RunSnoc(START, s[..n], s[n]);
      assert false;
    }
  }

  /** The stack when parsing ends: the containers and keys open where the longest live prefix ends. */
  function FinalElements(s: string): seq<Element> {
    ElementsOf(Settle(StateOf(s[..LiveLength(START, s)])))
  }

  // ----- the listener

  class ErrorLocator {
    var position: nat
    var foundError: bool
    var stack: seq<Element>

    constructor ()
      ensures !foundError && stack == [] && position == 0
    {
      position, foundError, stack := 0, false, [];
    }

    method ParseError(position: nat)
      requires position >= 1
      modifies this`position, this`foundError
      ensures foundError && this.position == position - 1
    {
      this.position := position - 1;
      foundError := true;
    }

    method CloseValue()
      modifies this`stack
      ensures stack == WithoutKey(old(stack))
    {
      if stack != [] && stack[|stack| - 1].KeyElement? {
        stack := stack[..|stack| - 1];
      }
    }

    /** A null, boolean, number or string value. */
    method Scalar()
      modifies this`stack
      ensures stack == WithoutKey(old(stack))
    {
      CloseValue();
    }

    method StartObject()
      modifies this`stack
      ensures stack == old(stack) + [ObjectElement]
    {
      stack := stack + [ObjectElement];
    }

    /** The requires clause is the assertion of the source; so it is in EndArray. */
    method EndObject()
      requires stack != [] && stack[|stack| - 1].ObjectElement?
      modifies this`stack
      ensures stack == WithoutKey(old(stack)[..|old(stack)| - 1])
    {
      stack := stack[..|stack| - 1];
      CloseValue();
    }

    method Key()
      modifies this`stack
      ensures stack == old(stack) + [KeyElement]
    {
      stack := stack + [KeyElement];
    }

    method StartArray()
      modifies this`stack
      ensures stack == old(stack) + [ArrayElement]
    {
      stack := stack + [ArrayElement];
    }

    method EndArray()
      requires stack != [] && stack[|stack| - 1].ArrayElement?
      modifies this`stack
      ensures stack == WithoutKey(old(stack)[..|old(stack)| - 1])
    {
      stack := stack[..|stack| - 1];
      CloseValue();
    }

    /** The events of one step of the parser; the handlers' assertions hold at each. */
    method Notify(st: State, c: char, next: State)
      requires FitsTop(st.mode, st.stack) && Step(st, c) == Some(next)
      requires stack == ElementsOf(st)
      modifies this`stack
      ensures stack == ElementsOf(next)
    {
      TokenStep(st, c, next);
      hide Between, ElementsOf, FitsTop, Step, WithoutKey;
      TokenElements(st, next);
      var here := st;
      if st.mode.Number? && !next.mode.Number? {
        Scalar();
        here := st.(mode := After);
      }
      if here.mode.Text? {
        if !next.mode.Text? {
          if here.mode.key {
            Key();
          } else {
            Scalar();
          }
        }
      } else if here.mode.Literal? {
        if next.mode.After? {
          Scalar();
        }
      } else if !here.mode.Number? {
        StructureElements(here, c, next);
        if c == '{' {
          StartObject();
        } else if c == '[' {
          StartArray();
        } else if c == '}' {
          EndObject();
        } else if c == ']' {
          EndArray();
        }
      }
    }
  }

  function WithoutKey(elements: seq<Element>): seq<Element> {
    if elements != [] && elements[|elements| - 1].KeyElement? then elements[..|elements| - 1] else elements
  }

  /** What a step does inside a token, and how it ends one. */
  lemma TokenStep(st: State, c: char, next: State)
    requires FitsTop(st.mode, st.stack) && Step(st, c) == Some(next)
    ensures FitsTop(After, st.stack)
    ensures st.mode.Text? && !next.mode.Text? ==> next == State(if st.mode.key then Colon else After, st.stack)
    ensures st.mode.Text? && st.mode.key ==> st.stack != [] && Top(st.stack).InObject?
    ensures st.mode.Text? && next.mode.Text? ==> next.stack == st.stack && next.mode.key == st.mode.key
    ensures st.mode.Literal? ==> next.stack == st.stack && (next.mode.After? || next.mode.Literal?)
    ensures st.mode.Number? && next.mode.Number? ==> next.stack == st.stack
    ensures st.mode.Number? && !next.mode.Number? ==> Between(st.(mode := After), c) == Some(next)
    ensures !InToken(st) ==> Between(st, c) == Some(next)
  {
    hide StartValue, TextStep;
    if st.mode.Number? && NumberStep(st.mode.number, c).None? {
      NumberEnds(st.(mode := After), c, next);
    }
  }

  predicate SameToken(st: State, next: State) {
    && next.stack == st.stack
    && match st.mode
       case Text(key, _) => next.mode.Text? && next.mode.key == key
       case Literal(_) => next.mode.Literal?
       case Number(_) => next.mode.Number?
       case _ => false
  }

  /** The element stack inside a token, and how it changes where the token ends. */
  lemma TokenElements(st: State, next: State)
    requires st.mode.Text? && st.mode.key ==> st.stack != [] && Top(st.stack).InObject?
    ensures SameToken(st, next) ==> ElementsOf(next) == ElementsOf(st)
    ensures InToken(st) && !(st.mode.Text? && st.mode.key) ==>
              ElementsOf(State(After, st.stack)) == WithoutKey(ElementsOf(st))
    ensures st.mode.Text? && st.mode.key ==> ElementsOf(State(Colon, st.stack)) == ElementsOf(st) + [KeyElement]
  {
    ScalarElements(st.stack);
    if st.mode.Text? && st.mode.key {
      KeyElements(st.stack);
    }
  }

  lemma NumberEnds(st: State, c: char, next: State)
    requires st.mode.After? && Between(st, c) == Some(next)
    ensures !next.mode.Number?
  {
  }

  /** A complete value closes the key above its object. */
  lemma ScalarElements(stack: seq<Container>)
    ensures WithoutKey(Elements(stack, true)) == Elements(stack, false)
  {
  }

  lemma KeyElements(stack: seq<Container>)
    requires stack != [] && Top(stack).InObject?
    ensures Elements(stack, false) + [KeyElement] == Elements(stack, true)
  {
  }

  /** Whether a key is open matters in an object only. */
  predicate SameKeys(stack: seq<Container>, one: bool, other: bool) {
    one == other || stack == [] || Top(stack).InArray?
  }

  lemma SameElements(stack: seq<Container>, one: bool, other: bool)
    requires SameKeys(stack, one, other)
    ensures Elements(stack, one) == Elements(stack, other)
  {
  }

  lemma ElementsPush(stack: seq<Container>, container: Container)
    ensures Elements(stack + [container], false)
            == Elements(stack, true) + [if container.InObject? then ObjectElement else ArrayElement]
  {
    assert Pop(stack + [container]) == stack;
  }

  lemma OpeningStep(st: State, c: char, next: State)
    requires Between(st, c) == Some(next) && FitsTop(st.mode, st.stack) && (c == '{' || c == '[')
    ensures SameKeys(st.stack, KeyOpen(st.mode), true)
    ensures next == State(if c == '{' then ObjectFirst else ArrayFirst,
                          st.stack + [if c == '{' then InObject else InArray])
  {
  }

  lemma ClosingStep(st: State, c: char, next: State)
    requires Between(st, c) == Some(next) && (c == '}' || c == ']')
    ensures st.stack != [] && Top(st.stack) == if c == '}' then InObject else InArray
    ensures !KeyOpen(st.mode) && next == State(After, Pop(st.stack))
  {
  }

  lemma OtherStep(st: State, c: char, next: State)
    requires Between(st, c) == Some(next) && !InToken(st) && FitsTop(st.mode, st.stack) && c !in "{[}]"
    ensures next.stack == st.stack && SameKeys(st.stack, KeyOpen(st.mode), KeyOpen(next.mode))
  {
  }

  lemma StructureElements(st: State, c: char, next: State)
    requires Between(st, c) == Some(next) && !InToken(st) && FitsTop(st.mode, st.stack)
    ensures c == '{' ==> ElementsOf(next) == ElementsOf(st) + [ObjectElement]
    ensures c == '[' ==> ElementsOf(next) == ElementsOf(st) + [ArrayElement]
    ensures c == '}' || c == ']' ==>
              && ElementsOf(st) == Elements(Pop(st.stack), true) + [if c == '}' then ObjectElement else ArrayElement]
              && ElementsOf(next) == WithoutKey(Elements(Pop(st.stack), true))
    ensures c !in "{[}]" ==> ElementsOf(next) == ElementsOf(st)
  {
    hide Between, FitsTop;
    if c == '{' || c == '[' {
      OpeningStep(st, c, next);
      SameElements(st.stack, KeyOpen(st.mode), true);
      ElementsPush(st.stack, if c == '{' then InObject else InArray);
    } else if c == '}' || c == ']' {
      ClosingStep(st, c, next);
      ScalarElements(Pop(st.stack));
    } else {
      OtherStep(st, c, next);
      SameElements(st.stack, KeyOpen(st.mode), KeyOpen(next.mode));
    }
  }

  /** Where the machine gets stuck, or reaches the end, the longest live prefix ends. */
  lemma StuckHere(s: string, i: nat, st: State)
    requires i <= |s| && Run(START, s[..i]) == Some(st)
    requires i < |s| ==> Step(st, s[i]).None?
    ensures LiveLength(START, s) == i && (Live(s) <==> i == |s|)
  {
    hide Run, Step, LiveLength;
    var n := LiveLength(START, s);
    if n < i {
      LivePrefixStep(s, i, n);
    }
    if i < |s| {
      RefusedStep(s, i, st);
      if i < n {
        assert s[..n][..i + 1] == s[..i + 1];
        LivePrefix(s[..n], i + 1);
      }
      if Live(s) {
        LivePrefix(s, i + 1);
      }
    } else {
      assert s[..i] == s;
    }
  }

  lemma LivePrefixStep(s: string, i: nat, n: nat)
    requires n < i <= |s| && Live(s[..i])
    ensures Live(s[..n]) && Step(StateOf(s[..n]), s[n]).Some?
  {
    hide Run, Step;
    assert s[..i][..n] == s[..n] && s[..i][..n + 1] == s[..n] + [s[n]];
    LivePrefix(s[..i], n);
    LivePrefix(s[..i], n + 1);
    RunSnoc(START, s[..n], s[n]);
  }

  lemma RefusedStep(s: string, i: nat, st: State)
    requires i < |s| && Run(START, s[..i]) == Some(st) && Step(st, s[i]).None?
    ensures !Live(s[..i + 1])
  {
    hide Run, Step;
    assert s[..i + 1] == s[..i] + [s[i]];
    RunSnoc(START, s[..i], s[i]);
  }

  lemma StopsHere(s: string, i: nat, st: State)
    requires i <= |s| && Run(START, s[..i]) == Some(st)
    requires i < |s| ==> Step(st, s[i]).None?
    ensures FinalElements(s) == ElementsOf(Settle(st))
    ensures i < |s| ==> !Accepts(s) && ErrorPosition(s) == RefusalPosition(st, s, i)
    ensures i == |s| ==> (Accepts(s) <==> Accepting(st)) && ErrorPosition(s) == |s|
  {
    hide Run, Step, LiveLength, RefusalPosition;
    StuckHere(s, i, st);
    assert i == |s| ==> s[..i] == s;
  }

  /** Runs the parser over the input; the listener is told what it meets. */
  method SaxParse(input: string, locator: ErrorLocator)
    requires !locator.foundError && locator.stack == []
    modifies locator
    ensures locator.foundError <==> !Accepts(input)
    ensures locator.foundError ==> locator.position == ErrorPosition(input)
    ensures locator.stack == FinalElements(input)
  {
    var st := START;
    var i := 0;
    while i < |input| && Step(st, input[i]).Some?
      invariant 0 <= i <= |input|
      invariant Run(START, input[..i]) == Some(st) && FitsTop(st.mode, st.stack)
      invariant locator.stack == ElementsOf(st) && !locator.foundError
    {
      hide Accepting, ElementsOf, ErrorPosition, FinalElements, FitsTop, RefusalPosition, Run, Step;
      var next := Step(st, input[i]).value;
      assert input[..i + 1] == input[..i] + [input[i]];
      RunSnoc(START, input[..i], input[i]);
      FitsTopStep(st, input[i], next);
      locator.Notify(st, input[i], next);
      st, i := next, i + 1;
    }
    hide Accepting, ErrorPosition, FinalElements, FitsTop, RefusalPosition, Run, Step;
    StopsHere(input, i, st);
    if st.mode.Number? && NumberComplete(st.mode.number) {
      ScalarElements(st.stack);
      locator.Scalar();
    }
    if i < |input| {
      locator.ParseError(RefusalPosition(st, input, i) + 1);
    } else if !Accepting(st) {
      locator.ParseError(|input| + 1);
    }
  }
}

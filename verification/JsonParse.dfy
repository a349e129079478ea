/** common_json_parse (common/json-partial.cpp): parse, or heal what was truncated. */
module JsonParse {
  import opened Base
  import opened JsonMachine
  import opened JsonShape
  import opened JsonCompletion
  import opened JsonErrorLocator
  import opened JsonHealing

  datatype Outcome =
    | Whole(text: string, consumed: nat)                      // returns true, healing marker empty
    | Partial(healing: Healing, consumed: nat, marker: string) // returns true after healing
    | Refused                                                 // returns false
    | Raised                                                  // throws

  /** The closing brackets, from the stack of the error locator. */
  method BuildClosing(stack: seq<Element>) returns (closing: string)
    ensures closing == Closing(Containers(stack))
  {
    closing := "";
    var i := |stack|;
    assert stack[..i] == stack;
    while i > 0
      invariant 0 <= i <= |stack|
      invariant closing + Closing(Containers(stack[..i])) == Closing(Containers(stack))
    {
      var element := stack[i - 1];
      assert stack[..i][..i - 1] == stack[..i - 1];
      ghost var below := Containers(stack[..i - 1]);
      if element.ObjectElement? {
        closing := closing + "}";
        assert Pop(below + [InObject]) == below;
      } else if element.ArrayElement? {
        closing := closing + "]";
        assert Pop(below + [InArray]) == below;
      }
      i := i - 1;
    }
  }

  /** The text stopped, without an error, inside an object or an array. */
  predicate Open(s: string) {
    Live(s) && StateOf(s).stack != []
  }

  /**
   The condition under which a text that stopped inside an object or an array is healed: when it
   stopped between the bytes of one string element, the last opener must be where a value of the
   innermost container starts.
   */
  predicate Healable(s: string)
    requires Open(s)
  {
    var st := StateOf(s);
    MidElement(st) ==> CutLands(s, Top(st.stack), st.stack)
  }

  /** What the tree makes of the text up to the error, by what the locator's stack ends in. */
  function Completed(str: string, elements: seq<Element>, closing: string, marker: string): Healing
    requires elements != []
  {
    match elements[|elements| - 1]
    case KeyElement => CompletedValue(str, closing, marker)
    case ArrayElement => CompletedItem(str, closing, marker)
    case ObjectElement => CompletedMember(str, closing, marker)
  }

  /** The outcome for every input. */
  function Parsed(input: string, healingMarker: string): Outcome {
    var at := ErrorPosition(input);
    var str := input[..at];
    var elements := FinalElements(input);
    if Accepts(input) then Whole(input, |input|)
    else if Accepts(str) then Whole(str, at)
    else if healingMarker == "" || elements == [] then Refused
    else if LastSolid(str) == "" then Raised
    else
      var healing := Completed(str, elements, Closing(Containers(elements)), healingMarker);
      if healing.Healed? && Accepts(healing.text) then Partial(healing, at, healingMarker) else Raised
  }

  method CommonJsonParse(input: string, healingMarker: string) returns (out: Outcome)
    ensures out == Parsed(input, healingMarker)
  {
    hide Accepts, Closing, CompletedItem, CompletedMember, CompletedValue, Containers, ErrorPosition, FinalElements, LastSolid;
    var locator := new ErrorLocator();
    SaxParse(input, locator);
    if !locator.foundError {
      return Whole(input, |input|);
    }
    var str := input[..locator.position];
    if Accepts(str) {
      return Whole(str, locator.position);
    }
    if healingMarker == "" || locator.stack == [] {
      return Refused;
    }
    if LastSolid(str) == "" {
      return Raised;
    }
    var closing := BuildClosing(locator.stack);
    var top := locator.stack[|locator.stack| - 1];
    var healing: Healing;
    match top {
      case KeyElement => healing := CompleteValue(str, closing, healingMarker);
      case ArrayElement => healing := CompleteItem(str, closing, healingMarker);
      case ObjectElement => healing := CompleteMember(str, closing, healingMarker);
    }
    if healing.Healed? && Accepts(healing.text) {
      return Partial(healing, locator.position, healingMarker);
    }
    return Raised;
  }

  /** Whatever the input, what is returned as parsed is a JSON text, and a healed one is a well-formed completion. */
  lemma ParsedIsSound(input: string, healingMarker: string)
    ensures var out := Parsed(input, healingMarker);
            && (Accepts(input) <==> out == Whole(input, |input|))
            && (out.Whole? ==> out.consumed <= |input| && out.text == input[..out.consumed] && Accepts(out.text))
            && (out.Partial? ==>
                  && out.consumed <= |input| && out.marker == healingMarker != ""
                  && out.healing.Healed? && Accepts(out.healing.text)
                  && WellCut(input[..out.consumed], healingMarker, out.healing)
                  && Tailed(Closing(Containers(FinalElements(input))), out.healing))
            && (healingMarker == "" ==> out.Whole? || out.Refused?)
  {
    hide Accepts, Closing, CompletedItem, CompletedMember, CompletedValue, Containers, FinalElements, LastSolid, Tailed, WellCut;
    var str := input[..ErrorPosition(input)];
    var closing := Closing(Containers(FinalElements(input)));
    AllWellCut(str, closing, healingMarker);
    if Accepts(str) && str == input {
      assert Accepts(input);
    }
  }

  /**
   An input that stopped in an open container is healed exactly if it is healable, and all of it is
   kept unless a cut is needed; otherwise the program throws. With nothing open it is refused.
   */
  lemma OpenIsHealed(input: string, healingMarker: string)
    requires Live(input) && !Accepts(input)
    ensures var out := Parsed(input, healingMarker);
            && (Open(input) && healingMarker != "" && StringSafe(healingMarker) ==>
                  && (out.Partial? <==> Healable(input))
                  && (out.Raised? <==> !Healable(input))
                  && (out.Partial? ==> out.consumed == |input|)
                  && (out.Partial? && !NeedsCut(input) ==> out.healing.kept == |input|))
            && (!Open(input) ==> out.Refused?)
  {
    hide Accepts, Closing, CompletedItem, CompletedMember, CompletedValue, Containers, CutLands, ErrorPosition, FinalElements,
      LastSolid, Live, NeedsCut, StateOf;
    Settled(input);
    if Open(input) && healingMarker != "" && StringSafe(healingMarker) {
      var closing := Closing(StateOf(input).stack);
      CompletedRight(input, closing, healingMarker);
    }
  }

  lemma CompletedRight(input: string, closing: string, marker: string)
    requires Open(input) && closing == Closing(StateOf(input).stack) && StringSafe(marker)
    ensures FinalElements(input) != []
    ensures HealedRight(input, Top(StateOf(input).stack), marker,
                        Completed(input, FinalElements(input), closing, marker))
  {
    hide Accepts, Closing, CompletedItem, CompletedMember, CompletedValue, Containers, HealedRight, LastSolid;
    Settled(input);
    var top := FinalElements(input)[|FinalElements(input)| - 1];
    match top
    case KeyElement => ValueRight(input, closing, marker);
    case ArrayElement => ItemRight(input, closing, marker);
    case ObjectElement => MemberRight(input, closing, marker);
  }

  /** How a text that stopped in an open container was healed. */
  lemma PartialHealing(input: string, marker: string)
    requires Open(input) && StringSafe(marker) && Parsed(input, marker).Partial?
    ensures var out := Parsed(input, marker);
            && out.consumed == |input| && out.healing.Healed? && Accepts(out.healing.text)
            && HealedRight(input, Top(StateOf(input).stack), marker, out.healing)
            && var mode := StateOf(input).mode;
               (mode.Text? && mode.part.Backslash? ==> out.healing.dumpMarker == "\\" + marker && out.healing.kept == |input|)
  {
    hide Accepts, Closing, Completed, Containers, ErrorPosition, FinalElements, HealedRight, LastSolid, Live, StateOf;
    Settled(input);
    var closing := Closing(StateOf(input).stack);
    CompletedRight(input, closing, marker);
    BackslashHealing(input, marker);
  }

  lemma BackslashHealing(input: string, marker: string)
    ensures Open(input) && StateOf(input).mode.Text? && StateOf(input).mode.part.Backslash? ==>
              && FinalElements(input) != []
              && var h := Completed(input, FinalElements(input), Closing(StateOf(input).stack), marker);
                 h.Healed? && h.dumpMarker == "\\" + marker && h.kept == |input|
  {
    hide Accepts, Closing, CompletedItem, CompletedMember, CompletedValue, Containers, FinalElements, LastSolid, Live, StateOf;
    Settled(input);
    if Open(input) && StateOf(input).mode.Text? && StateOf(input).mode.part.Backslash? {
      BackslashAdds(input, Closing(StateOf(input).stack), marker);
    }
  }

  /** Where a live text stopped, the locator's stack is the open containers with the open keys. */
  lemma Settled(input: string)
    ensures Live(input) ==>
              && ErrorPosition(input) == |input| && input[..|input|] == input
              && var st := Settle(StateOf(input));
                 && st.stack == StateOf(input).stack
                 && FinalElements(input) == Elements(st.stack, KeyOpen(st.mode))
                 && Containers(FinalElements(input)) == st.stack
    ensures Open(input) ==> LastSolid(input) != ""
  {
    assert input[..|input|] == input;
    if Live(input) {
      LiveToTheEnd(input);
      var st := Settle(StateOf(input));
      ContainersOfElements(st.stack, KeyOpen(st.mode));
      if st.stack != [] {
        OpenIsSolid(input);
      }
    }
  }

  lemma {:induction false} BlanksRun(s: string)
    requires forall k :: 0 <= k < |s| ==> s[k] in BLANKS
    ensures Run(START, s) == Some(START)
    decreases |s|
  {
    if s != [] {
      BlanksRun(s[1..]);
    }
  }

  lemma OpenIsSolid(s: string)
    requires Open(s)
    ensures LastSolid(s) != ""
  {
    if LastSolid(s) == "" {
      BlanksRun(s);
    }
  }
}

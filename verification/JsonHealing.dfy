/**
 Healing of truncated JSON (common/json-partial.cpp): a SAX listener keeps a stack of what is
 open where the parser stops; a decision tree then completes the text around a marker.
 */
module JsonHealing {
  import opened Base
  import opened JsonMachine
  import opened JsonShape
  import opened JsonCompletion
  import opened JsonErrorLocator

  // ----- the decision tree, branch by branch

  /** The text after completion; `kept` and `tail` say which part of the input is left and what follows the marker. */
  datatype Healing =
    | Healed(text: string, dumpMarker: string, kept: nat, tail: string)
    | Unknown // the program throws: stopped in an unknown location

  /** The stop was in an open container, whose completion `closing` closes. */
  predicate Stopped(str: string, container: Container, closing: string) {
    && Live(str)
    && StateOf(str).stack != []
    && Top(StateOf(str).stack) == container
    && closing == Closing(StateOf(str).stack)
  }

  /** The stop needs a cut: inside a number, a literal or a string element, or just after `true` or `false`. */
  predicate NeedsCut(str: string)
    requires Live(str)
  {
    var mode := StateOf(str).mode;
    mode.Number? || mode.Literal? || MidElement(StateOf(str)) || (mode.After? && EndsWith(str, "e"))
  }

  /** What completion promises for a stop in an open container. */
  ghost predicate HealedRight(str: string, container: Container, marker: string, out: Healing)
    requires Live(str) && StateOf(str).stack != []
  {
    var st := StateOf(str);
    && (out.Healed? && Accepts(out.text) <==> MidElement(st) ==> CutLands(str, container, st.stack))
    && (out.Healed? && !NeedsCut(str) ==> out.kept == |str|)
    && (NeedsCut(str) ==> out == CutBack(str, container, marker, Closing(st.stack)))
  }

  /** The text that is handed to the final parse consists of a prefix of the input, the dump marker and a tail. */
  predicate WellCut(str: string, marker: string, out: Healing) {
    out.Healed? ==>
      && out.kept <= |str|
      && out.text == str[..out.kept] + out.dumpMarker + out.tail
      && out.dumpMarker in [marker, "\"" + marker, ":\"" + marker, ",\"" + marker, "\\" + marker]
  }

  /** The tail ends the marker's string, or its key with a value, and closes what is open. */
  predicate Tailed(closing: string, out: Healing) {
    out.Healed? ==> out.tail == "\"" + closing || out.tail == "\": 1" + closing
  }

  function CutBack(str: string, container: Container, marker: string, closing: string): Healing {
    var p := LastIndexOf(str, Openers(container));
    if p.None? then Unknown
    else
      Healed(str[..p.value + 1] + "\"" + marker + "\"" + closing, "\"" + marker, p.value + 1, "\"" + closing)
  }

  lemma CutBackRight(str: string, container: Container, marker: string, closing: string)
    requires Stopped(str, container, closing) && StringSafe(marker)
    ensures var out := CutBack(str, container, marker, closing);
            out.Healed? && Accepts(out.text) <==> CutLands(str, container, StateOf(str).stack)
  {
    var stack := StateOf(str).stack;
    var p := LastIndexOf(str, Openers(container));
    if p.Some? {
      var front, c := str[..p.value], str[p.value];
      assert str[..p.value + 1] == front + [c];
      LivePrefix(str, p.value);
      LivePrefix(str, p.value + 1);
      RunSnoc(START, front, c);
      ShapeHolds(front);
      var added := "\"" + marker + "\"" + closing;
      assert str[..p.value + 1] + "\"" + marker + "\"" + closing == front + [c] + added;
      AcceptsAppend(front + [c], added);
      MarkerAfterOpener(StateOf(front), c, StateOf(front + [c]), marker, stack);
    }
  }

  // ----- guards of the tree: which of its trial parses succeed

  /** Step facts behind the guards, for a stop at an object value outside a string. */
  lemma ValueBlocked(st: State)
    requires st.stack != [] && Top(st.stack).InObject? && FitsTop(st.mode, st.stack)
    requires KeyOpen(Settle(st).mode) && !st.mode.Text?
    ensures !st.mode.Colon? ==> Step(st, ':').None?
    ensures st.mode.Colon? ==> Step(st, '1').None?
    ensures !st.mode.Value? ==> Step(st, '"').None?
    ensures Step(st, '}').None? && Step(st, '\\').None?
  {
  }

  lemma ValueQuote(st: State, closing: string)
    requires st.mode.Value? ==> '"' !in closing
    requires !st.mode.Value? ==> Step(st, '"').None?
    ensures !AcceptsFrom(st, "\"" + closing)
  {
    RunCons(st, '"', closing);
    if st.mode.Value? {
      Unterminated(st.(mode := Text(false, Plain)), closing);
    }
  }

  lemma SolidNumber(str: string)
    requires Live(str) && StateOf(str).mode.Number?
    ensures LastSolid(str) !in [":", "{", "[", ","]
  {
    hide Run, Step;
    ShapeHolds(str);
    assert LastSolid(str) == [str[|str| - 1]];
  }

  /** Inside an object value, but not in a string. */
  lemma ValueGuards(str: string, closing: string)
    requires Stopped(str, InObject, closing) && KeyOpen(Settle(StateOf(str)).mode)
    requires !StateOf(str).mode.Text?
    ensures LastSolid(str) == ":" && Accepts(str + "1" + closing) <==> StateOf(str).mode.Value?
    ensures Accepts(str + ": 1" + closing) <==> StateOf(str).mode.Colon?
    ensures !Accepts(str + closing) && !Accepts(str + "\"" + closing) && !Accepts(str + "\\\"" + closing)
  {
    var st := StateOf(str);
    ShapeHolds(str);
    ValueBlocked(st);
    CanParse(str, "1", closing);
    if st.mode.Value? {
      FinishOne(st);
    } else if st.mode.Number? {
      SolidNumber(str);
    } else {
      Blocked(st, "1", closing);
    }
    CanParse(str, ": 1", closing);
    if st.mode.Colon? {
      FinishColon(st.stack);
    } else {
      Blocked(st, ": 1", closing);
    }
    AcceptsAppend(str, closing);
    Blocked(st, closing, []);
    assert closing + [] == closing;
    CanParse(str, "\"", closing);
    ValueQuote(st, closing);
    CanParse(str, "\\\"", closing);
    Blocked(st, "\\\"", closing);
  }

  /** In the middle of a string element only its own bytes may follow. */
  lemma MidBlocked(st: State, c: char)
    requires MidElement(st) && FitsTop(st.mode, st.stack)
    requires c == '"' || c == ',' || (c == '\\' && !st.mode.part.PairSlash?)
    ensures Step(st, c).None?
  {
  }

  /** A backslash and a quote, put in a string that was not at a backslash, leave it open. */
  lemma EscapedQuote(st: State, t: string)
    requires st.mode.Text? && !st.mode.part.Backslash? && FitsTop(st.mode, st.stack) && '"' !in t
    ensures !AcceptsFrom(st, "\\\"" + t)
  {
    assert "\\\"" + t == ['\\'] + (['"'] + t);
    RunCons(st, '\\', ['"'] + t);
    if Step(st, '\\').Some? {
      var next := Step(st, '\\').value;
      RunCons(next, '"', t);
      if Step(next, '"').Some? {
        Unterminated(Step(next, '"').value, t);
      }
    }
  }

  /** A backslash after a backslash is an escaped backslash; the string goes on. */
  lemma SecondBackslash(st: State, t: string)
    requires st.mode.Text? && st.mode.part.Backslash?
    ensures Run(st, ['\\'] + t) == Run(st.(mode := Text(st.mode.key, Plain)), t)
  {
    RunCons(st, '\\', t);
  }

  /** Inside a string, without a quote no trial succeeds. */
  lemma TextOpen(str: string, x: string, closing: string)
    requires Live(str) && StateOf(str).mode.Text? && '"' !in x && '"' !in closing
    ensures !Accepts(str + x + closing) && !Accepts(str + closing)
  {
    CanParse(str, x, closing);
    AcceptsAppend(str, closing);
    Unterminated(StateOf(str), x + closing);
    Unterminated(StateOf(str), closing);
  }

  lemma ValueTextEnd(st: State)
    requires st.mode.Text? && !st.mode.key && FitsTop(st.mode, st.stack)
    ensures AcceptsFrom(st, "\"" + Closing(st.stack)) <==> st.mode.part.Plain?
    ensures AcceptsFrom(st, "\\\"" + Closing(st.stack)) <==> st.mode.part.Backslash?
  {
    var closing := Closing(st.stack);
    var plain := st.(mode := Text(false, Plain));
    if st.mode.part.Plain? || st.mode.part.Backslash? {
      FinishText(st.stack, "");
      assert "" + "\"" + closing == "\"" + closing;
    } else {
      MidBlocked(st, '"');
      Blocked(st, "\"", closing);
    }
    if st.mode.part.Backslash? {
      RunCons(st, '"', closing);
      Unterminated(plain, closing);
      assert "\\\"" + closing == ['\\'] + ("\"" + closing);
      SecondBackslash(st, "\"" + closing);
    } else {
      EscapedQuote(st, closing);
    }
  }

  /** Inside a string that is a value. */
  lemma ValueTextGuards(str: string, container: Container, closing: string)
    requires Stopped(str, container, closing)
    requires StateOf(str).mode.Text? && !StateOf(str).mode.key
    ensures Accepts(str + "\"" + closing) <==> StateOf(str).mode.part.Plain?
    ensures Accepts(str + "\\\"" + closing) <==> StateOf(str).mode.part.Backslash?
  {
    ShapeHolds(str);
    CanParse(str, "\"", closing);
    CanParse(str, "\\\"", closing);
    ValueTextEnd(StateOf(str));
  }

  lemma KeyTextEnd(stack: seq<Container>, x: string)
    requires x != [] && x[0] != ':' && x[0] !in BLANKS
    ensures !AcceptsFrom(State(Text(true, Plain), stack), "\"" + x)
  {
    RunCons(State(Text(true, Plain), stack), '"', x);
    Blocked(State(Colon, stack), x, []);
    assert x + [] == x;
  }

  lemma EscapedQuoteStep(st: State)
    requires st.mode.Text? && st.mode.part.Backslash?
    ensures Step(st, '"') == Some(st.(mode := Text(st.mode.key, Plain)))
  {
  }

  lemma KeyEnd(st: State)
    requires st.mode.Text? && st.mode.key && FitsTop(st.mode, st.stack)
    ensures AcceptsFrom(st, "\": 1" + Closing(st.stack)) <==> st.mode.part.Plain?
    ensures AcceptsFrom(st, "\\\": 1" + Closing(st.stack)) <==> st.mode.part.Backslash?
  {
    hide Run, Step;
    var rest := ": 1" + Closing(st.stack);
    var plain := st.(mode := Text(true, Plain));
    assert "\": 1" + Closing(st.stack) == "\"" + rest;
    assert "\\\": 1" + Closing(st.stack) == "\\\"" + rest;
    if st.mode.part.Plain? || st.mode.part.Backslash? {
      FinishKey(st.stack, "");
      assert "" + "\": 1" + Closing(st.stack) == "\"" + rest;
    } else {
      MidBlocked(st, '"');
      Blocked(st, "\"", rest);
    }
    if st.mode.part.Backslash? {
      EscapedQuoteStep(st);
      RunCons(st, '"', rest);
      Unterminated(plain, rest);
      assert "\\\"" + rest == ['\\'] + ("\"" + rest);
      SecondBackslash(st, "\"" + rest);
    } else {
      EscapedQuote(st, rest);
    }
  }

  /** A new key can be put neither inside a key nor inside its elements. */
  lemma KeyInKey(st: State, closing: string)
    requires st.mode.Text? && st.mode.key && FitsTop(st.mode, st.stack)
    ensures !st.mode.part.Backslash? ==> !AcceptsFrom(st, "\"\": 1" + closing)
    ensures !AcceptsFrom(st, ",\"\": 1" + closing)
  {
    var again := "\": 1" + closing;
    assert "\"\": 1" + closing == "\"" + again;
    assert ",\"\": 1" + closing == [','] + ("\"" + again);
    RunCons(st, ',', "\"" + again);
    match st.mode.part
    case Plain =>
      KeyTextEnd(st.stack, again);
    case Backslash =>
    case _ =>
      MidBlocked(st, '"');
      MidBlocked(st, ',');
      Blocked(st, "\"", again);
  }

  /** Inside a key. */
  lemma KeyGuards(str: string, closing: string)
    requires Stopped(str, InObject, closing)
    requires StateOf(str).mode.Text? && StateOf(str).mode.key
    ensures !(LastSolid(str) == "," && Accepts(str + "\"\": 1" + closing))
    ensures !Accepts(str + ",\"\": 1" + closing)
    ensures Accepts(str + "\": 1" + closing) <==> StateOf(str).mode.part.Plain?
    ensures Accepts(str + "\\\": 1" + closing) <==> StateOf(str).mode.part.Backslash?
  {
    ShapeHolds(str);
    CanParse(str, "\"\": 1", closing);
    CanParse(str, ",\"\": 1", closing);
    CanParse(str, "\": 1", closing);
    CanParse(str, "\\\": 1", closing);
    KeyEnd(StateOf(str));
    KeyInKey(StateOf(str), closing);
    if StateOf(str).mode.part.Backslash? {
      assert LastSolid(str) == [str[|str| - 1]];
    }
  }

  /** The text may have stopped in a number that is not complete. */
  predicate MaybeNumber(str: string) {
    !(str != [] && IsSpace(str[|str| - 1])) && LastSolid(str) != [] && LastSolid(str)[0] in "0123456789.eE-"
  }

  lemma MaybeNumberStops(str: string)
    requires Live(str)
    ensures StateOf(str).mode.After? ==> (MaybeNumber(str) <==> EndsWith(str, "e"))
    ensures StateOf(str).mode.Number? && NumberComplete(StateOf(str).mode.number) ==> MaybeNumber(str)
  {
    hide Run, Step;
    ShapeHolds(str);
    if EndsWith(str, "\"}]le") || EndsWith(str, DIGITS) {
      assert LastSolid(str) == [str[|str| - 1]];
    }
  }

  /** A comma and one more value after a complete value. */
  lemma FinishItem(st: State)
    requires st.stack != [] && Top(st.stack).InArray? && Settle(st).mode.After?
    ensures AcceptsFrom(st, ", 1" + Closing(st.stack))
  {
    var closing := Closing(st.stack);
    var value := State(Value, st.stack);
    assert ", 1" + closing == [','] + ([' '] + ("1" + closing));
    RunCons(st, ',', [' '] + ("1" + closing));
    RunCons(value, ' ', "1" + closing);
    FinishOne(value);
  }

  lemma FinishNextMember(st: State, marker: string)
    requires st.stack != [] && Top(st.stack).InObject? && Settle(st).mode.After? && StringSafe(marker)
    ensures AcceptsFrom(st, ",\"" + marker + "\": 1" + Closing(st.stack))
  {
    var rest := "\"" + marker + "\": 1" + Closing(st.stack);
    assert ",\"" + marker + "\": 1" + Closing(st.stack) == [','] + rest;
    RunCons(st, ',', rest);
    FinishMember(State(ObjectKey, st.stack), marker);
  }

  lemma ItemBlocked(st: State)
    requires st.stack != [] && Top(st.stack).InArray? && FitsTop(st.mode, st.stack) && !st.mode.Text?
    ensures !AwaitsValue(st.mode) && !st.mode.Number? ==> Step(st, '1').None?
    ensures !AwaitsValue(st.mode) ==> Step(st, '"').None?
    ensures !Settle(st).mode.After? ==> Step(st, ',').None?
    ensures Step(st, '\\').None?
  {
  }

  /** Inside an array, but not in a string. */
  lemma ItemGuards(str: string, closing: string)
    requires Stopped(str, InArray, closing) && !StateOf(str).mode.Text?
    ensures LastSolid(str) in [",", "["] && Accepts(str + "1" + closing) <==> AwaitsValue(StateOf(str).mode)
    ensures !Accepts(str + "\"" + closing) && !Accepts(str + "\\\"" + closing)
    ensures Accepts(str + ", 1" + closing) <==> Settle(StateOf(str)).mode.After?
  {
    var st := StateOf(str);
    ShapeHolds(str);
    ItemBlocked(st);
    CanParse(str, "1", closing);
    if AwaitsValue(st.mode) {
      FinishOne(st);
    } else if st.mode.Number? {
      SolidNumber(str);
    } else {
      Blocked(st, "1", closing);
    }
    CanParse(str, "\"", closing);
    ItemQuote(st, closing);
    CanParse(str, "\\\"", closing);
    Blocked(st, "\\\"", closing);
    CanParse(str, ", 1", closing);
    if Settle(st).mode.After? {
      FinishItem(st);
    } else {
      Blocked(st, ", 1", closing);
    }
  }

  lemma ItemQuote(st: State, closing: string)
    requires AwaitsValue(st.mode) ==> '"' !in closing
    requires !AwaitsValue(st.mode) ==> Step(st, '"').None?
    ensures !AcceptsFrom(st, "\"" + closing)
  {
    RunCons(st, '"', closing);
    if AwaitsValue(st.mode) {
      Unterminated(st.(mode := Text(false, Plain)), closing);
    }
  }

  lemma MemberBlocked(st: State)
    requires st.stack != [] && Top(st.stack).InObject? && FitsTop(st.mode, st.stack) && !st.mode.Text?
    requires !KeyOpen(Settle(st).mode)
    ensures !st.mode.ObjectFirst? && !st.mode.ObjectKey? ==> Step(st, '"').None?
    ensures !Settle(st).mode.After? ==> Step(st, ',').None?
    ensures Step(st, '\\').None?
    ensures st.mode.ObjectKey? ==> Step(st, '}').None?
  {
  }

  lemma MemberQuote(st: State, x: string)
    requires st.mode.ObjectFirst? || st.mode.ObjectKey? ==> '"' !in x
    requires !(st.mode.ObjectFirst? || st.mode.ObjectKey?) ==> Step(st, '"').None?
    ensures !AcceptsFrom(st, "\"" + x)
  {
    RunCons(st, '"', x);
    if st.mode.ObjectFirst? || st.mode.ObjectKey? {
      Unterminated(Step(st, '"').value, x);
    }
  }

  lemma EmptyObject(st: State)
    requires st.mode.ObjectFirst? && st.stack != [] && Top(st.stack).InObject?
    ensures AcceptsFrom(st, Closing(st.stack))
  {
    var closing := Closing(st.stack);
    var after := State(After, st.stack);
    assert closing == [closing[0]] + closing[1..];
    RunCons(st, closing[0], closing[1..]);
    RunCons(after, closing[0], closing[1..]);
    Unwind(st.stack, st.stack);
  }

  lemma MemberEnds(st: State)
    requires st.stack != [] && Top(st.stack).InObject? && FitsTop(st.mode, st.stack) && !st.mode.Text?
    requires !KeyOpen(Settle(st).mode)
    ensures st.mode.ObjectFirst? ==> AcceptsFrom(st, Closing(st.stack))
    ensures st.mode.ObjectKey? ==> !AcceptsFrom(st, Closing(st.stack))
    ensures AcceptsFrom(st, ",\"\": 1" + Closing(st.stack)) <==> Settle(st).mode.After?
  {
    var closing := Closing(st.stack);
    MemberBlocked(st);
    if st.mode.ObjectFirst? {
      EmptyObject(st);
    } else if st.mode.ObjectKey? {
      Blocked(st, closing, []);
      assert closing + [] == closing;
    }
    if Settle(st).mode.After? {
      FinishNextMember(st, "");
      assert ",\"" + "" + "\": 1" + closing == ",\"\": 1" + closing;
    } else {
      Blocked(st, ",\"\": 1", closing);
    }
  }

  lemma MemberQuotes(st: State)
    requires st.stack != [] && Top(st.stack).InObject? && FitsTop(st.mode, st.stack) && !st.mode.Text?
    requires !KeyOpen(Settle(st).mode)
    ensures st.mode.ObjectKey? ==> AcceptsFrom(st, "\"\": 1" + Closing(st.stack))
    ensures !st.mode.ObjectKey? && !st.mode.ObjectFirst? ==> !AcceptsFrom(st, "\"\": 1" + Closing(st.stack))
    ensures !AcceptsFrom(st, "\": 1" + Closing(st.stack))
    ensures !AcceptsFrom(st, "\\\": 1" + Closing(st.stack))
  {
    var closing := Closing(st.stack);
    MemberBlocked(st);
    if st.mode.ObjectKey? {
      FinishMember(st, "");
      assert "\"" + "" + "\": 1" + closing == "\"\": 1" + closing;
    } else if !st.mode.ObjectFirst? {
      Blocked(st, "\"\": 1", closing);
    }
    assert "\": 1" + closing == "\"" + (": 1" + closing);
    MemberQuote(st, ": 1" + closing);
    Blocked(st, "\\\": 1", closing);
  }

  /** Inside an object, outside its keys and values. */
  lemma MemberGuards(str: string, closing: string)
    requires Stopped(str, InObject, closing) && !StateOf(str).mode.Text?
    requires !KeyOpen(Settle(StateOf(str)).mode)
    ensures LastSolid(str) == "{" && Accepts(str + closing) <==> StateOf(str).mode.ObjectFirst?
    ensures LastSolid(str) == "," && Accepts(str + "\"\": 1" + closing) <==> StateOf(str).mode.ObjectKey?
    ensures Accepts(str + ",\"\": 1" + closing) <==> Settle(StateOf(str)).mode.After?
    ensures !Accepts(str + "\": 1" + closing) && !Accepts(str + "\\\": 1" + closing)
  {
    var st := StateOf(str);
    ShapeHolds(str);
    if st.mode.Number? {
      SolidNumber(str);
    }
    MemberEnds(st);
    MemberQuotes(st);
    AcceptsAppend(str, closing);
    CanParse(str, "\"\": 1", closing);
    CanParse(str, ",\"\": 1", closing);
    CanParse(str, "\": 1", closing);
    CanParse(str, "\\\": 1", closing);
  }

  // ----- what the branches add

  function Add(input: string, dumpMarker: string, tail: string): Healing {
    Healed(input + dumpMarker + tail, dumpMarker, |input|, tail)
  }

  /** Adding the texts that complete the stop is right when no cut is needed. */
  lemma AddRight(str: string, container: Container, closing: string, marker: string, dumpMarker: string, tail: string)
    requires Stopped(str, container, closing) && !NeedsCut(str)
    requires AcceptsFrom(StateOf(str), dumpMarker + tail)
    ensures HealedRight(str, container, marker, Add(str, dumpMarker, tail))
  {
    CanParse(str, dumpMarker, tail);
  }

  lemma CutRight(str: string, container: Container, closing: string, marker: string)
    requires Stopped(str, container, closing) && NeedsCut(str) && StringSafe(marker)
    ensures HealedRight(str, container, marker, CutBack(str, container, marker, closing))
  {
    CutBackRight(str, container, marker, closing);
    ShapeHolds(str);
    assert !MidElement(StateOf(str)) ==> Removable(str, StateOf(str));
  }

  /** A string value, begun where a value is awaited or gone on with. */
  lemma TextAdds(str: string, container: Container, closing: string, marker: string)
    requires Stopped(str, container, closing) && StringSafe(marker)
    ensures var mode := StateOf(str).mode;
            && (AwaitsValue(mode) ==>
                  HealedRight(str, container, marker, Add(str, "\"" + marker, "\"" + closing)))
            && (mode == Text(false, Plain) ==>
                  HealedRight(str, container, marker, Add(str, marker, "\"" + closing)))
            && (mode == Text(false, Backslash) ==>
                  HealedRight(str, container, marker, Add(str, "\\" + marker, "\"" + closing)))
  {
    var st := StateOf(str);
    var rest := marker + ("\"" + closing);
    assert marker + "\"" + closing == rest;
    if AwaitsValue(st.mode) {
      MarkerAsValue(st, marker, st.stack);
      assert "\"" + marker + "\"" + closing == "\"" + marker + ("\"" + closing);
      AddRight(str, container, closing, marker, "\"" + marker, "\"" + closing);
    } else if st.mode == Text(false, Plain) {
      FinishText(st.stack, marker);
      AddRight(str, container, closing, marker, marker, "\"" + closing);
    } else if st.mode == Text(false, Backslash) {
      FinishText(st.stack, marker);
      SecondBackslash(st, rest);
      assert "\\" + marker + ("\"" + closing) == ['\\'] + rest;
      AddRight(str, container, closing, marker, "\\" + marker, "\"" + closing);
    }
  }

  lemma ColonAdds(str: string, closing: string, marker: string)
    requires Stopped(str, InObject, closing) && StringSafe(marker) && StateOf(str).mode.Colon?
    ensures HealedRight(str, InObject, marker, Add(str, ":\"" + marker, "\"" + closing))
  {
    var st := StateOf(str);
    var rest := "\"" + marker + "\"" + closing;
    assert ":\"" + marker + ("\"" + closing) == [':'] + rest;
    RunCons(st, ':', rest);
    MarkerAsValue(State(Value, st.stack), marker, st.stack);
    AddRight(str, InObject, closing, marker, ":\"" + marker, "\"" + closing);
  }

  lemma ItemAdds(str: string, closing: string, marker: string)
    requires Stopped(str, InArray, closing) && StringSafe(marker)
    requires StateOf(str).mode.After? && !EndsWith(str, "e")
    ensures HealedRight(str, InArray, marker, Add(str, ",\"" + marker, "\"" + closing))
  {
    var st := StateOf(str);
    var rest := "\"" + marker + "\"" + closing;
    assert ",\"" + marker + ("\"" + closing) == [','] + rest;
    RunCons(st, ',', rest);
    MarkerAsValue(State(Value, st.stack), marker, st.stack);
    AddRight(str, InArray, closing, marker, ",\"" + marker, "\"" + closing);
  }

  /** A key, begun where one is awaited or gone on with. */
  lemma KeyAdds(str: string, closing: string, marker: string)
    requires Stopped(str, InObject, closing) && StringSafe(marker)
    ensures var mode := StateOf(str).mode;
            && (mode.ObjectFirst? || mode.ObjectKey? ==>
                  HealedRight(str, InObject, marker, Add(str, "\"" + marker, "\": 1" + closing)))
            && (mode == Text(true, Plain) ==>
                  HealedRight(str, InObject, marker, Add(str, marker, "\": 1" + closing)))
            && (mode == Text(true, Backslash) ==>
                  HealedRight(str, InObject, marker, Add(str, "\\" + marker, "\": 1" + closing)))
  {
    var st := StateOf(str);
    var rest := marker + ("\": 1" + closing);
    assert marker + "\": 1" + closing == rest;
    if st.mode.ObjectFirst? || st.mode.ObjectKey? {
      FinishMember(st, marker);
      assert "\"" + marker + "\": 1" + closing == "\"" + marker + ("\": 1" + closing);
      AddRight(str, InObject, closing, marker, "\"" + marker, "\": 1" + closing);
    } else if st.mode == Text(true, Plain) {
      FinishKey(st.stack, marker);
      AddRight(str, InObject, closing, marker, marker, "\": 1" + closing);
    } else if st.mode == Text(true, Backslash) {
      FinishKey(st.stack, marker);
      SecondBackslash(st, rest);
      assert "\\" + marker + ("\": 1" + closing) == ['\\'] + rest;
      AddRight(str, InObject, closing, marker, "\\" + marker, "\": 1" + closing);
    }
  }

  lemma NextMemberAdds(str: string, closing: string, marker: string)
    requires Stopped(str, InObject, closing) && StringSafe(marker)
    requires StateOf(str).mode.After? && !EndsWith(str, "e")
    ensures HealedRight(str, InObject, marker, Add(str, ",\"" + marker, "\": 1" + closing))
  {
    FinishNextMember(StateOf(str), marker);
    assert ",\"" + marker + "\": 1" + closing == ",\"" + marker + ("\": 1" + closing);
    AddRight(str, InObject, closing, marker, ",\"" + marker, "\": 1" + closing);
  }

  // ----- the decision tree

  /** The text stopped in an open container whose innermost locator element is `top`. */
  predicate StoppedAt(str: string, top: Element, closing: string) {
    && Live(str)
    && StateOf(str).stack != []
    && closing == Closing(StateOf(str).stack)
    && TopElement(Top(StateOf(str).stack), KeyOpen(Settle(StateOf(str)).mode)) == top
  }

  /** What the tree makes of a stop in an object value. */
  function CompletedValue(input: string, closing: string, marker: string): Healing {
    if LastSolid(input) == ":" && Accepts(input + "1" + closing) then Add(input, "\"" + marker, "\"" + closing)
    else if Accepts(input + ": 1" + closing) then Add(input, ":\"" + marker, "\"" + closing)
    else if LastSolid(input) == "{" && Accepts(input + closing) then Add(input, "\"" + marker, "\": 1" + closing)
    else if Accepts(input + "\"" + closing) then Add(input, marker, "\"" + closing)
    else if EndsWith(input, "\\") && Accepts(input + "\\\"" + closing) then Add(input, "\\" + marker, "\"" + closing)
    else CutBack(input, InObject, marker, closing)
  }

  lemma ValueRight(input: string, closing: string, marker: string)
    requires StoppedAt(input, KeyElement, closing) && StringSafe(marker)
    ensures HealedRight(input, InObject, marker, CompletedValue(input, closing, marker))
  {
    hide Accepts, Closing, CutLands, HealedRight, Live, Run, StateOf, Step;
    ShapeHolds(input);
    TextAdds(input, InObject, closing, marker);
    if StateOf(input).mode.Text? {
      TextOpen(input, "1", closing);
      TextOpen(input, ": 1", closing);
      ValueTextGuards(input, InObject, closing);
    } else {
      ValueGuards(input, closing);
      if StateOf(input).mode.Colon? {
        ColonAdds(input, closing, marker);
      }
    }
    if NeedsCut(input) {
      CutRight(input, InObject, closing, marker);
    }
  }

  /** What the tree makes of a stop in an array. */
  function CompletedItem(input: string, closing: string, marker: string): Healing {
    if (LastSolid(input) == "," || LastSolid(input) == "[") && Accepts(input + "1" + closing) then
      Add(input, "\"" + marker, "\"" + closing)
    else if Accepts(input + "\"" + closing) then Add(input, marker, "\"" + closing)
    else if EndsWith(input, "\\") && Accepts(input + "\\\"" + closing) then Add(input, "\\" + marker, "\"" + closing)
    else if !MaybeNumber(input) && Accepts(input + ", 1" + closing) then Add(input, ",\"" + marker, "\"" + closing)
    else CutBack(input, InArray, marker, closing)
  }

  lemma ItemRight(input: string, closing: string, marker: string)
    requires StoppedAt(input, ArrayElement, closing) && StringSafe(marker)
    ensures HealedRight(input, InArray, marker, CompletedItem(input, closing, marker))
  {
    hide Accepts, Closing, CutLands, HealedRight, Live, Run, StateOf, Step;
    ShapeHolds(input);
    MaybeNumberStops(input);
    TextAdds(input, InArray, closing, marker);
    if StateOf(input).mode.Text? {
      TextOpen(input, "1", closing);
      TextOpen(input, ", 1", closing);
      ValueTextGuards(input, InArray, closing);
    } else {
      ItemGuards(input, closing);
      if StateOf(input).mode.After? && !EndsWith(input, "e") {
        ItemAdds(input, closing, marker);
      }
    }
    if NeedsCut(input) {
      CutRight(input, InArray, closing, marker);
    }
  }

  /** What the tree makes of a stop between or inside the keys of an object. */
  function CompletedMember(input: string, closing: string, marker: string): Healing {
    if (LastSolid(input) == "{" && Accepts(input + closing)) ||
       (LastSolid(input) == "," && Accepts(input + "\"\": 1" + closing))
    then Add(input, "\"" + marker, "\": 1" + closing)
    else if !MaybeNumber(input) && Accepts(input + ",\"\": 1" + closing) then Add(input, ",\"" + marker, "\": 1" + closing)
    else if Accepts(input + "\": 1" + closing) then Add(input, marker, "\": 1" + closing)
    else if EndsWith(input, "\\") && Accepts(input + "\\\": 1" + closing) then
      Add(input, "\\" + marker, "\": 1" + closing)
    else CutBack(input, InObject, marker, closing)
  }

  lemma MemberRight(input: string, closing: string, marker: string)
    requires StoppedAt(input, ObjectElement, closing) && StringSafe(marker)
    ensures HealedRight(input, InObject, marker, CompletedMember(input, closing, marker))
  {
    hide Accepts, Closing, CutLands, HealedRight, Live, Run, StateOf, Step;
    ShapeHolds(input);
    MaybeNumberStops(input);
    KeyAdds(input, closing, marker);
    if StateOf(input).mode.Text? {
      TextOpen(input, "", closing);
      KeyGuards(input, closing);
    } else {
      MemberGuards(input, closing);
      if StateOf(input).mode.After? && !EndsWith(input, "e") {
        NextMemberAdds(input, closing, marker);
      }
    }
    if NeedsCut(input) {
      CutRight(input, InObject, closing, marker);
    }
  }

  // ----- what every branch adds

  lemma CutWellCut(input: string, container: Container, marker: string, closing: string)
    ensures WellCut(input, marker, CutBack(input, container, marker, closing))
    ensures Tailed(closing, CutBack(input, container, marker, closing))
  {
    var p := LastIndexOf(input, Openers(container));
    if p.Some? {
      assert input[..p.value + 1] + "\"" + marker + "\"" + closing
          == input[..p.value + 1] + ("\"" + marker) + ("\"" + closing);
    }
  }

  lemma AddsWellCut(input: string, closing: string, marker: string, tail: string)
    requires tail == "\"" + closing || tail == "\": 1" + closing
    ensures forall dump :: dump in [marker, "\"" + marker, ":\"" + marker, ",\"" + marker, "\\" + marker] ==>
              WellCut(input, marker, Add(input, dump, tail)) && Tailed(closing, Add(input, dump, tail))
  {
    assert input[..|input|] == input;
  }

  /** Whatever branch is taken: a prefix of the input, a dump marker, and a tail. */
  lemma AllWellCut(input: string, closing: string, marker: string)
    ensures WellCut(input, marker, CompletedValue(input, closing, marker))
    ensures WellCut(input, marker, CompletedItem(input, closing, marker))
    ensures WellCut(input, marker, CompletedMember(input, closing, marker))
    ensures Tailed(closing, CompletedValue(input, closing, marker))
    ensures Tailed(closing, CompletedItem(input, closing, marker))
    ensures Tailed(closing, CompletedMember(input, closing, marker))
  {
    hide Accepts, Add, CutBack, EndsWith, LastSolid, MaybeNumber, Tailed, WellCut;
    AddsWellCut(input, closing, marker, "\"" + closing);
    AddsWellCut(input, closing, marker, "\": 1" + closing);
    CutWellCut(input, InObject, marker, closing);
    CutWellCut(input, InArray, marker, closing);
  }

  /** Behind a backslash the tree goes on with the escape. */
  lemma BackslashAdds(input: string, closing: string, marker: string)
    requires Live(input) && StateOf(input).mode.Text? && StateOf(input).mode.part.Backslash?
    ensures StoppedAt(input, KeyElement, closing) ==>
              CompletedValue(input, closing, marker) == Add(input, "\\" + marker, "\"" + closing)
    ensures StoppedAt(input, ArrayElement, closing) ==>
              CompletedItem(input, closing, marker) == Add(input, "\\" + marker, "\"" + closing)
    ensures StoppedAt(input, ObjectElement, closing) ==>
              CompletedMember(input, closing, marker) == Add(input, "\\" + marker, "\": 1" + closing)
  {
    hide Accepts, Add, Closing, CutBack, LastSolid, MaybeNumber, Run, Step;
    ShapeHolds(input);
    var st := StateOf(input);
    if st.stack != [] && closing == Closing(st.stack) {
      TextOpen(input, "1", closing);
      TextOpen(input, ": 1", closing);
      TextOpen(input, "", closing);
      if st.mode.key {
        KeyGuards(input, closing);
      } else {
        ValueTextGuards(input, Top(st.stack), closing);
      }
    }
  }

  // ----- the tree as the program runs it

  method CompleteValue(input: string, closing: string, marker: string) returns (out: Healing)
    ensures out == CompletedValue(input, closing, marker)
    ensures WellCut(input, marker, out) && Tailed(closing, out)
    ensures StoppedAt(input, KeyElement, closing) && StringSafe(marker) ==> HealedRight(input, InObject, marker, out)
  {
    hide Accepts, Add, CutBack, EndsWith, HealedRight, LastSolid, MaybeNumber, StoppedAt, Tailed, WellCut;
    AllWellCut(input, closing, marker);
    if StoppedAt(input, KeyElement, closing) && StringSafe(marker) {
      ValueRight(input, closing, marker);
    }
    if LastSolid(input) == ":" && Accepts(input + "1" + closing) {
      out := Add(input, "\"" + marker, "\"" + closing);
    } else if Accepts(input + ": 1" + closing) {
      out := Add(input, ":\"" + marker, "\"" + closing);
    } else if LastSolid(input) == "{" && Accepts(input + closing) {
      out := Add(input, "\"" + marker, "\": 1" + closing);
    } else if Accepts(input + "\"" + closing) {
      out := Add(input, marker, "\"" + closing);
    } else if EndsWith(input, "\\") && Accepts(input + "\\\"" + closing) {
      out := Add(input, "\\" + marker, "\"" + closing);
    } else {
      out := CutBack(input, InObject, marker, closing);
    }
  }

  method CompleteItem(input: string, closing: string, marker: string) returns (out: Healing)
    ensures out == CompletedItem(input, closing, marker)
    ensures WellCut(input, marker, out) && Tailed(closing, out)
    ensures StoppedAt(input, ArrayElement, closing) && StringSafe(marker) ==> HealedRight(input, InArray, marker, out)
  {
    hide Accepts, Add, CutBack, EndsWith, HealedRight, LastSolid, MaybeNumber, StoppedAt, Tailed, WellCut;
    AllWellCut(input, closing, marker);
    if StoppedAt(input, ArrayElement, closing) && StringSafe(marker) {
      ItemRight(input, closing, marker);
    }
    if (LastSolid(input) == "," || LastSolid(input) == "[") && Accepts(input + "1" + closing) {
      out := Add(input, "\"" + marker, "\"" + closing);
    } else if Accepts(input + "\"" + closing) {
      out := Add(input, marker, "\"" + closing);
    } else if EndsWith(input, "\\") && Accepts(input + "\\\"" + closing) {
      out := Add(input, "\\" + marker, "\"" + closing);
    } else if !MaybeNumber(input) && Accepts(input + ", 1" + closing) {
      out := Add(input, ",\"" + marker, "\"" + closing);
    } else {
      out := CutBack(input, InArray, marker, closing);
    }
  }

  method CompleteMember(input: string, closing: string, marker: string) returns (out: Healing)
    ensures out == CompletedMember(input, closing, marker)
    ensures WellCut(input, marker, out) && Tailed(closing, out)
    ensures StoppedAt(input, ObjectElement, closing) && StringSafe(marker) ==> HealedRight(input, InObject, marker, out)
  {
    hide Accepts, Add, CutBack, EndsWith, HealedRight, LastSolid, MaybeNumber, StoppedAt, Tailed, WellCut;
    AllWellCut(input, closing, marker);
    if StoppedAt(input, ObjectElement, closing) && StringSafe(marker) {
      MemberRight(input, closing, marker);
    }
    if (LastSolid(input) == "{" && Accepts(input + closing)) ||
       (LastSolid(input) == "," && Accepts(input + "\"\": 1" + closing))
    {
      out := Add(input, "\"" + marker, "\": 1" + closing);
    } else if !MaybeNumber(input) && Accepts(input + ",\"\": 1" + closing) {
      out := Add(input, ",\"" + marker, "\": 1" + closing);
    } else if Accepts(input + "\": 1" + closing) {
      out := Add(input, marker, "\": 1" + closing);
    } else if EndsWith(input, "\\") && Accepts(input + "\\\": 1" + closing) {
      out := Add(input, "\\" + marker, "\": 1" + closing);
    } else {
      out := CutBack(input, InObject, marker, closing);
    }
  }
}

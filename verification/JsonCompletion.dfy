/** Which texts appended to a truncated JSON text complete it, by the state it stopped in. */
module JsonCompletion {
  import opened Base
  import opened JsonMachine
  import opened JsonShape

  /** A marker that may be written inside any JSON string: printable ASCII, no quote, no backslash. */
  predicate StringSafe(marker: string) {
    forall c :: c in marker ==> c != '"' && c != '\\' && 0x20 <= c as int < 0x80
  }

  /** The text stopped between the bytes of one string element: a \u escape, a surrogate pair, a UTF-8 sequence. */
  predicate MidElement(st: State) {
    st.mode.Text? && !st.mode.part.Plain? && !st.mode.part.Backslash?
  }

  lemma RunCons(st: State, c: char, s: string)
    ensures Run(st, [c] + s) == if Step(st, c).None? then None else Run(Step(st, c).value, s)
  {
    assert ([c] + s)[0] == c && ([c] + s)[1..] == s;
  }

  lemma CanParse(str: string, x: string, closing: string)
    ensures Accepts(str + x + closing) <==> Live(str) && AcceptsFrom(StateOf(str), x + closing)
  {
    assert str + x + closing == str + (x + closing);
    AcceptsAppend(str, x + closing);
  }

  lemma Blocked(st: State, x: string, t: string)
    requires x != [] && Step(st, x[0]).None?
    ensures !AcceptsFrom(st, x + t)
  {
    assert x + t == [x[0]] + (x[1..] + t);
    RunCons(st, x[0], x[1..] + t);
  }

  // ----- inside a string

  /** Without a quote a string never ends. */
  lemma {:induction false} Unterminated(st: State, t: string)
    requires st.mode.Text? && '"' !in t
    ensures !AcceptsFrom(st, t)
    decreases |t|
  {
    if t != [] && Step(st, t[0]).Some? {
      Unterminated(Step(st, t[0]).value, t[1..]);
    }
  }

  lemma {:induction false} MarkerRun(st: State, marker: string)
    requires st.mode.Text? && st.mode.part.Plain? && StringSafe(marker)
    ensures Run(st, marker) == Some(st)
    decreases |marker|
  {
    if marker != [] {
      assert marker[0] in marker && forall c :: c in marker[1..] ==> c in marker;
      assert Step(st, marker[0]) == Some(st);
      MarkerRun(st, marker[1..]);
    }
  }

  /** The marker, the closing quote and the closers complete a value that is a string. */
  lemma FinishText(stack: seq<Container>, marker: string)
    requires StringSafe(marker)
    ensures AcceptsFrom(State(Text(false, Plain), stack), marker + "\"" + Closing(stack))
  {
    var st := State(Text(false, Plain), stack);
    assert marker + "\"" + Closing(stack) == marker + (['"'] + Closing(stack));
    RunAppend(st, marker, ['"'] + Closing(stack));
    MarkerRun(st, marker);
    RunCons(st, '"', Closing(stack));
    Unwind(stack, stack);
  }

  /** One digit and the closers complete a text that awaits a value in a container. */
  lemma FinishOne(st: State)
    requires AwaitsValue(st.mode) && st.stack != []
    ensures AcceptsFrom(st, "1" + Closing(st.stack))
  {
    var closing := Closing(st.stack);
    RunCons(st, '1', closing);
    var after := State(After, st.stack);
    var number := State(Number(Integer), st.stack);
    assert closing == [closing[0]] + closing[1..];
    assert Step(number, closing[0]) == Step(after, closing[0]);
    RunCons(number, closing[0], closing[1..]);
    RunCons(after, closing[0], closing[1..]);
    Unwind(st.stack, st.stack);
  }

  /** The end of a key, a value and the closers. */
  lemma FinishColon(stack: seq<Container>)
    requires stack != [] && Top(stack).InObject?
    ensures AcceptsFrom(State(Colon, stack), ": 1" + Closing(stack))
  {
    var closing := Closing(stack);
    assert ": 1" + closing == [':'] + ([' '] + ("1" + closing));
    RunCons(State(Colon, stack), ':', [' '] + ("1" + closing));
    RunCons(State(Value, stack), ' ', "1" + closing);
    FinishOne(State(Value, stack));
  }

  lemma FinishKey(stack: seq<Container>, marker: string)
    requires stack != [] && Top(stack).InObject? && StringSafe(marker)
    ensures AcceptsFrom(State(Text(true, Plain), stack), marker + "\": 1" + Closing(stack))
  {
    var st := State(Text(true, Plain), stack);
    var rest := ": 1" + Closing(stack);
    assert marker + "\": 1" + Closing(stack) == marker + (['"'] + rest);
    RunAppend(st, marker, ['"'] + rest);
    MarkerRun(st, marker);
    RunCons(st, '"', rest);
    FinishColon(stack);
  }

  lemma FinishMember(st: State, marker: string)
    requires st.mode.ObjectKey? || st.mode.ObjectFirst?
    requires st.stack != [] && Top(st.stack).InObject? && StringSafe(marker)
    ensures AcceptsFrom(st, "\"" + marker + "\": 1" + Closing(st.stack))
  {
    var rest := marker + "\": 1" + Closing(st.stack);
    assert "\"" + marker + "\": 1" + Closing(st.stack) == ['"'] + rest;
    RunCons(st, '"', rest);
    FinishKey(st.stack, marker);
  }

  // ----- cutting back

  lemma QuoteOpens(st: State, next: State)
    requires !st.mode.Text? && Step(st, '"') == Some(next) && FitsTop(st.mode, st.stack)
    ensures next.mode.Text?
  {
  }

  lemma OnlyQuoteOpens(st: State, c: char, next: State)
    requires !st.mode.Text? && Step(st, c) == Some(next) && c != '"'
    ensures !next.mode.Text?
  {
  }

  /** With a single quote, a text outside a string opens one that is never closed. */
  lemma {:induction false} OneQuote(st: State, a: string, b: string)
    requires FitsTop(st.mode, st.stack) && !st.mode.Text? && '"' !in a && '"' !in b
    ensures !AcceptsFrom(st, a + "\"" + b)
    decreases |a|
  {
    hide FitsTop, Step;
    if a == [] {
      assert a + "\"" + b == ['"'] + b;
      RunCons(st, '"', b);
      if Step(st, '"').Some? {
        QuoteOpens(st, Step(st, '"').value);
        Unterminated(Step(st, '"').value, b);
      }
    } else {
      assert a + "\"" + b == [a[0]] + (a[1..] + "\"" + b);
      RunCons(st, a[0], a[1..] + "\"" + b);
      assert a[0] in a;
      if Step(st, a[0]).Some? {
        FitsTopStep(st, a[0], Step(st, a[0]).value);
        OnlyQuoteOpens(st, a[0], Step(st, a[0]).value);
        OneQuote(Step(st, a[0]).value, a[1..], b);
      }
    }
  }

  /** Put inside a string, the marker's first quote ends that string and its second opens another. */
  lemma MarkerInText(st: State, marker: string, stack: seq<Container>)
    requires st.mode.Text? && st.mode.part.Plain? && FitsTop(st.mode, st.stack) && StringSafe(marker)
    ensures !AcceptsFrom(st, "\"" + marker + "\"" + Closing(stack))
  {
    var rest := marker + "\"" + Closing(stack);
    assert "\"" + marker + "\"" + Closing(stack) == ['"'] + rest;
    RunCons(st, '"', rest);
    OneQuote(Step(st, '"').value, marker, Closing(stack));
  }

  /** Put where a key is awaited, the marker becomes a key without a value. */
  lemma MarkerAsKey(st: State, marker: string, stack: seq<Container>)
    requires st.mode.ObjectKey? && StringSafe(marker)
    ensures !AcceptsFrom(st, "\"" + marker + "\"" + Closing(stack))
  {
    hide Closing;
    var closing := Closing(stack);
    var key, colon := st.(mode := Text(true, Plain)), st.(mode := Colon);
    assert "\"" + marker + "\"" + closing == ['"'] + (marker + (['"'] + closing));
    RunCons(st, '"', marker + (['"'] + closing));
    RunAppend(key, marker, ['"'] + closing);
    MarkerRun(key, marker);
    RunCons(key, '"', closing);
    if closing != [] {
      assert closing[0] in closing;
      Blocked(colon, closing, []);
      assert closing + [] == closing;
    }
  }

  lemma MarkerAsValue(st: State, marker: string, stack: seq<Container>)
    requires AwaitsValue(st.mode) && StringSafe(marker)
    ensures AcceptsFrom(st, "\"" + marker + "\"" + Closing(stack)) <==> st.stack == stack
  {
    var closing := Closing(stack);
    var text := st.(mode := Text(false, Plain));
    assert "\"" + marker + "\"" + closing == ['"'] + (marker + (['"'] + closing));
    RunCons(st, '"', marker + (['"'] + closing));
    RunAppend(text, marker, ['"'] + closing);
    MarkerRun(text, marker);
    RunCons(text, '"', closing);
    Unwind(st.stack, stack);
  }

  /**
   A marker string put right after an opener completes the text iff a value is awaited there,
   at the nesting that the closers close.
   */
  lemma MarkerAfterOpener(st: State, c: char, next: State, marker: string, stack: seq<Container>)
    requires Step(st, c) == Some(next) && c in ":[,"
    requires FitsTop(st.mode, st.stack) && StringSafe(marker)
    ensures AcceptsFrom(next, "\"" + marker + "\"" + Closing(stack))
            <==> AwaitsValue(next.mode) && next.stack == stack
  {
    FitsTopStep(st, c, next);
    AfterOpener(st, c, next);
    if AwaitsValue(next.mode) {
      MarkerAsValue(next, marker, stack);
    } else if next.mode.Text? {
      MarkerInText(next, marker, stack);
    } else {
      MarkerAsKey(next, marker, stack);
    }
  }

  lemma AfterOpener(st: State, c: char, next: State)
    requires Step(st, c) == Some(next) && c in ":[,"
    requires FitsTop(st.mode, st.stack)
    ensures AwaitsValue(next.mode) || next.mode.ObjectKey? || (next.mode.Text? && next.mode.part.Plain?)
  {
    match st.mode
    case Number(_) =>
    case Literal(_) =>
    case Text(_, _) =>
    case _ =>
  }
}

/** JSON values and their compact text (json::dump), which the machine of JsonMachine accepts. */
module JsonDump {
  import opened Base
  import opened JsonMachine

  /** A parsed value. A number is the text it is dumped as; the keys of an object are distinct. */
  datatype Json =
    | Null
    | Bool(b: bool)
    | Num(text: string)
    | Str(s: string)
    | Arr(items: seq<Json>)
    | Obj(members: seq<Member>)

  datatype Member = Member(key: string, value: Json)

  function HexDigit(n: nat): char
    requires n < 16
  {
    if n < 10 then ('0' as int + n) as char else ('a' as int + n - 10) as char
  }

  /** One character of a string in the dump. */
  function Escape(c: char): string {
    if c == '"' then "\\\""
    else if c == '\\' then "\\\\"
    else if c == 8 as char then "\\b"
    else if c == 12 as char then "\\f"
    else if c == '\n' then "\\n"
    else if c == '\r' then "\\r"
    else if c == '\t' then "\\t"
    else if c as int < 0x20 then "\\u00" + [HexDigit(c as int / 16), HexDigit(c as int % 16)]
    else [c]
  }

  function EscapeAll(s: string): string {
    if s == [] then [] else Escape(s[0]) + EscapeAll(s[1..])
  }

  function DumpString(s: string): string {
    "\"" + EscapeAll(s) + "\""
  }

  function Dump(j: Json): string
    decreases j, 0
  {
    match j
    case Null => "null"
    case Bool(b) => if b then "true" else "false"
    case Num(text) => text
    case Str(s) => DumpString(s)
    case Arr(items) => "[" + DumpItems(items) + "]"
    case Obj(members) => "{" + DumpMembers(members) + "}"
  }

  function DumpItems(items: seq<Json>): string
    decreases items, 1
  {
    if items == [] then "" else Dump(items[0]) + MoreItems(items[1..])
  }

  /** The items behind the first. */
  function MoreItems(items: seq<Json>): string
    decreases items, 1
  {
    if items == [] then "" else "," + (Dump(items[0]) + MoreItems(items[1..]))
  }

  function DumpMember(m: Member): string
    decreases m, 0
  {
    DumpString(m.key) + (":" + Dump(m.value))
  }

  function DumpMembers(ms: seq<Member>): string
    decreases ms, 1
  {
    if ms == [] then "" else DumpMember(ms[0]) + MoreMembers(ms[1..])
  }

  function MoreMembers(ms: seq<Member>): string
    decreases ms, 1
  {
    if ms == [] then "" else "," + (DumpMember(ms[0]) + MoreMembers(ms[1..]))
  }

  // ----- the dump is a JSON text

  predicate Ascii(s: string) {
    forall i :: 0 <= i < |s| ==> s[i] as int < 0x80
  }

  /** A text that the machine reads as one whole number. */
  predicate NumberText(text: string) {
    && text != [] && (IsDigit(text[0]) || text[0] == '-')
    && var r := Run(START, text);
       r.Some? && r.value.stack == [] && r.value.mode.Number? && NumberComplete(r.value.mode.number)
  }

  predicate Dumpable(j: Json)
    decreases j, 0
  {
    match j
    case Null => true
    case Bool(_) => true
    case Num(text) => NumberText(text)
    case Str(s) => Ascii(s)
    case Arr(items) => forall i :: 0 <= i < |items| ==> Dumpable(items[i])
    case Obj(members) => forall i :: 0 <= i < |members| ==> Ascii(members[i].key) && Dumpable(members[i].value)
  }

  lemma StepAt(st: State, s: string, i: nat, next: State)
    requires i < |s| && Step(st, s[i]) == Some(next)
    ensures Run(st, s[i..]) == Run(next, s[i + 1..])
  {
    assert s[i..][1..] == s[i + 1..];
  }

  lemma EscapeRuns(key: bool, stack: seq<Container>, c: char)
    requires c as int < 0x80
    ensures Run(State(Text(key, Plain), stack), Escape(c)) == Some(State(Text(key, Plain), stack))
  {
    var st := State(Text(key, Plain), stack);
    var e := Escape(c);
    assert e[0..] == e;
    if |e| == 1 {
      StepAt(st, e, 0, st);
    } else if |e| == 2 {
      StepAt(st, e, 0, State(Text(key, Backslash), stack));
      StepAt(State(Text(key, Backslash), stack), e, 1, st);
    } else {
      HexDigitValue(c as int / 16);
      HexDigitValue(c as int % 16);
      ControlRuns(key, stack, e, c as int / 16, c as int % 16);
    }
  }

  lemma HexDigitValue(n: nat)
    requires n < 16
    ensures HexValue(HexDigit(n)) == Some(n)
  {
  }

  lemma TextStepAt(key: bool, stack: seq<Container>, s: string, i: nat, p: TextPart, q: TextPart)
    requires i < |s| && !p.Plain? && TextStep(p, s[i]) == Some(q)
    ensures Run(State(Text(key, p), stack), s[i..]) == Run(State(Text(key, q), stack), s[i + 1..])
  {
    StepAt(State(Text(key, p), stack), s, i, State(Text(key, q), stack));
  }

  lemma HexStep(read: nat, code: nat, c: char, v: nat)
    requires HexValue(c) == Some(v) && read < 3
    ensures TextStep(Hex(read, code, false), c) == Some(Hex(read + 1, code * 16 + v, false))
  {
  }

  lemma HexEnd(code: nat, c: char, v: nat)
    requires HexValue(c) == Some(v) && code * 16 + v < 0xD800
    ensures TextStep(Hex(3, code, false), c) == Some(Plain)
  {
  }

  lemma HexZero()
    ensures HexValue('0') == Some(0)
  {
  }

  lemma ZerosRun(key: bool, stack: seq<Container>, e: string)
    requires |e| == 6 && e[2] == e[3] == '0'
    ensures Run(State(Text(key, Hex(0, 0, false)), stack), e[2..])
            == Run(State(Text(key, Hex(2, 0, false)), stack), e[4..])
  {
    HexZero();
    hide Run, TextStep, HexValue;
    HexStep(0, 0, e[2], 0);
    HexStep(1, 0, e[3], 0);
    TextStepAt(key, stack, e, 2, Hex(0, 0, false), Hex(1, 0, false));
    TextStepAt(key, stack, e, 3, Hex(1, 0, false), Hex(2, 0, false));
  }

  lemma DigitsRun(key: bool, stack: seq<Container>, e: string, m: nat, n: nat)
    requires |e| == 6 && m < 2 && n < 16 && HexValue(e[4]) == Some(m) && HexValue(e[5]) == Some(n)
    ensures Run(State(Text(key, Hex(2, 0, false)), stack), e[4..]) == Run(State(Text(key, Plain), stack), e[6..])
  {
    hide Run, TextStep, HexValue;
    HexStep(2, 0, e[4], m);
    HexEnd(m, e[5], n);
    TextStepAt(key, stack, e, 4, Hex(2, 0, false), Hex(3, m, false));
    TextStepAt(key, stack, e, 5, Hex(3, m, false), Plain);
  }

  lemma ControlRuns(key: bool, stack: seq<Container>, e: string, m: nat, n: nat)
    requires |e| == 6 && e[0] == '\\' && e[1] == 'u' && e[2] == e[3] == '0' && m < 2
    requires HexValue(e[4]) == Some(m) && HexValue(e[5]) == Some(n) && n < 16
    ensures Run(State(Text(key, Plain), stack), e) == Some(State(Text(key, Plain), stack))
  {
    assert e[0..] == e && e[6..] == [];
    StepAt(State(Text(key, Plain), stack), e, 0, State(Text(key, Backslash), stack));
    TextStepAt(key, stack, e, 1, Backslash, Hex(0, 0, false));
    ZerosRun(key, stack, e);
    DigitsRun(key, stack, e, m, n);
  }

  lemma {:induction false} EscapeAllRuns(key: bool, stack: seq<Container>, s: string)
    requires Ascii(s)
    ensures Run(State(Text(key, Plain), stack), EscapeAll(s)) == Some(State(Text(key, Plain), stack))
    decreases |s|
  {
    if s != [] {
      EscapeRuns(key, stack, s[0]);
      RunAppend(State(Text(key, Plain), stack), Escape(s[0]), EscapeAll(s[1..]));
      EscapeAllRuns(key, stack, s[1..]);
    }
  }

  /** A string read where a value, a first item or a key may start. */
  lemma StringRuns(st: State, key: bool, s: string)
    requires Ascii(s) && Step(st, '"') == Some(State(Text(key, Plain), st.stack))
    ensures Run(st, DumpString(s)) == Some(State(if key then Colon else After, st.stack))
  {
    RunSnoc(st, [], '"');
    assert [] + ['"'] == "\"";
    RunAppend(st, "\"", EscapeAll(s));
    EscapeAllRuns(key, st.stack, s);
    RunSnoc(st, "\"" + EscapeAll(s), '"');
  }

  /** A value has been read: completely, or a number that may still go on. */
  predicate Finished(st: State, stack: seq<Container>) {
    st.stack == stack && (st.mode.After? || (st.mode.Number? && NumberComplete(st.mode.number)))
  }

  /** A separator or closer ends a number like any other value. */
  lemma FinishedStep(st: State, stack: seq<Container>, c: char)
    requires Finished(st, stack) && c in ",]}"
    ensures Step(st, c) == Step(State(After, stack), c)
  {
  }

  /** A comma after a finished value. */
  lemma CommaRuns(st: State, stack: seq<Container>, container: Container, next: State)
    requires Finished(st, stack + [container])
    requires next == State(if container.InObject? then ObjectKey else Value, stack + [container])
    ensures Run(st, ",") == Some(next)
  {
    FinishedStep(st, stack + [container], ',');
    RunSnoc(st, [], ',');
    assert [] + [','] == ",";
  }

  /** Where a value may start: after a separator, or first in an array. */
  predicate Starts(st: State) {
    st.mode.Value? || st.mode.ArrayFirst?
  }

  lemma NumberElsewhere(st: State, text: string)
    requires Starts(st) && NumberText(text)
    ensures Run(st, text).Some? && Finished(Run(st, text).value, st.stack)
  {
    var first := Step(START, text[0]).value;
    assert Step(st, text[0]) == Some(State(first.mode, st.stack));
    NumberStack(first, st.stack, text[1..]);
  }

  /** Inside a number the machine does not look at the stack. */
  lemma {:induction false} NumberStack(st: State, stack: seq<Container>, s: string)
    requires st.mode.Number? && st.stack == []
    requires var r := Run(st, s); r.Some? && r.value.stack == [] && r.value.mode.Number?
    ensures Run(State(st.mode, stack), s) == Some(State(Run(st, s).value.mode, stack))
    decreases |s|
  {
    if s != [] {
      var next := Step(st, s[0]).value;
      if next.mode.Number? {
        NumberStack(next, stack, s[1..]);
      } else {
        NeverBack(next, s[1..]);
      }
    }
  }

  /** With no container left open, a machine past a value never reads a number again. */
  lemma {:induction false} NeverBack(st: State, s: string)
    requires st == State(After, []) && Run(st, s).Some?
    ensures !Run(st, s).value.mode.Number?
    decreases |s|
  {
    if s != [] {
      NeverBack(Step(st, s[0]).value, s[1..]);
    }
  }

  lemma LiteralRuns(st: State, j: Json)
    requires Starts(st) && (j.Null? || j.Bool?)
    ensures Run(st, Dump(j)) == Some(State(After, st.stack))
  {
    var s := Dump(j);
    var st1 := State(Literal(s[1..]), st.stack);
    assert Step(st, s[0]) == Some(st1);
    LiteralRest(st1, s[1..]);
  }

  lemma {:induction false} LiteralRest(st: State, s: string)
    requires st.mode == Literal(s) && s != []
    ensures Run(st, s) == Some(State(After, st.stack))
    decreases |s|
  {
    if |s| > 1 {
      LiteralRest(State(Literal(s[1..]), st.stack), s[1..]);
    } else {
      assert s[1..] == [];
      assert Run(State(After, st.stack), []) == Some(State(After, st.stack));
    }
  }

  /** Reading a value's dump where a value may start finishes a value there. */
  lemma {:induction false} ValueRuns(st: State, j: Json)
    requires Starts(st) && Dumpable(j)
    ensures Run(st, Dump(j)).Some? && Finished(Run(st, Dump(j)).value, st.stack)
    decreases j, 0
  {
    match j
    case Null => LiteralRuns(st, j);
    case Bool(_) => LiteralRuns(st, j);
    case Num(text) => NumberElsewhere(st, text);
    case Str(s) => StringRuns(st, false, s);
    case Arr(items) => ArrayRuns(st, items);
    case Obj(members) => ObjectRuns(st, members);
  }

  lemma {:induction false} ArrayRuns(st: State, items: seq<Json>)
    requires Starts(st) && forall i :: 0 <= i < |items| ==> Dumpable(items[i])
    ensures Run(st, "[" + DumpItems(items) + "]") == Some(State(After, st.stack))
    decreases items, 2
  {
    var inside := State(ArrayFirst, st.stack + [InArray]);
    RunSnoc(st, [], '[');
    assert [] + ['['] == "[" && Pop(inside.stack) == st.stack;
    RunAppend(st, "[", DumpItems(items));
    RunSnoc(st, "[" + DumpItems(items), ']');
    if items != [] {
      ValueRuns(inside, items[0]);
      RunAppend(inside, Dump(items[0]), MoreItems(items[1..]));
      MoreItemsRun(Run(inside, Dump(items[0])).value, st.stack, items[1..]);
      FinishedStep(Run(inside, DumpItems(items)).value, inside.stack, ']');
    }
  }

  lemma {:induction false} MoreItemsRun(st: State, stack: seq<Container>, items: seq<Json>)
    requires Finished(st, stack + [InArray]) && forall i :: 0 <= i < |items| ==> Dumpable(items[i])
    ensures Run(st, MoreItems(items)).Some? && Finished(Run(st, MoreItems(items)).value, stack + [InArray])
    decreases items, 1
  {
    if items != [] {
      hide Run, Step;
      var next := State(Value, stack + [InArray]);
      CommaRuns(st, stack, InArray, next);
      RunAppend(st, ",", Dump(items[0]) + MoreItems(items[1..]));
      ValueRuns(next, items[0]);
      RunAppend(next, Dump(items[0]), MoreItems(items[1..]));
      MoreItemsRun(Run(next, Dump(items[0])).value, stack, items[1..]);
    }
  }

  lemma {:induction false} MemberRuns(st: State, m: Member)
    requires (st.mode.ObjectFirst? || st.mode.ObjectKey?) && Ascii(m.key) && Dumpable(m.value)
    ensures Run(st, DumpMember(m)).Some? && Finished(Run(st, DumpMember(m)).value, st.stack)
    decreases m, 1
  {
    var colon, value := State(Colon, st.stack), State(Value, st.stack);
    StringRuns(st, true, m.key);
    RunAppend(st, DumpString(m.key), ":" + Dump(m.value));
    RunSnoc(colon, [], ':');
    assert [] + [':'] == ":";
    RunAppend(colon, ":", Dump(m.value));
    ValueRuns(value, m.value);
  }

  lemma {:induction false} ObjectRuns(st: State, ms: seq<Member>)
    requires Starts(st) && forall i :: 0 <= i < |ms| ==> Ascii(ms[i].key) && Dumpable(ms[i].value)
    ensures Run(st, "{" + DumpMembers(ms) + "}") == Some(State(After, st.stack))
    decreases ms, 2
  {
    var inside := State(ObjectFirst, st.stack + [InObject]);
    RunSnoc(st, [], '{');
    assert [] + ['{'] == "{" && Pop(inside.stack) == st.stack;
    RunAppend(st, "{", DumpMembers(ms));
    RunSnoc(st, "{" + DumpMembers(ms), '}');
    if ms != [] {
      MemberRuns(inside, ms[0]);
      RunAppend(inside, DumpMember(ms[0]), MoreMembers(ms[1..]));
      MoreMembersRun(Run(inside, DumpMember(ms[0])).value, st.stack, ms[1..]);
      FinishedStep(Run(inside, DumpMembers(ms)).value, inside.stack, '}');
    }
  }

  lemma {:induction false} MoreMembersRun(st: State, stack: seq<Container>, ms: seq<Member>)
    requires Finished(st, stack + [InObject]) && forall i :: 0 <= i < |ms| ==> Ascii(ms[i].key) && Dumpable(ms[i].value)
    ensures Run(st, MoreMembers(ms)).Some? && Finished(Run(st, MoreMembers(ms)).value, stack + [InObject])
    decreases ms, 1
  {
    if ms != [] {
      hide DumpMember, Run, Step;
      var next := State(ObjectKey, stack + [InObject]);
      CommaRuns(st, stack, InObject, next);
      RunAppend(st, ",", DumpMember(ms[0]) + MoreMembers(ms[1..]));
      MemberRuns(next, ms[0]);
      var after := Run(next, DumpMember(ms[0])).value;
      RunAppend(next, DumpMember(ms[0]), MoreMembers(ms[1..]));
      MoreMembersRun(after, stack, ms[1..]);
    }
  }

  /** The dump of every value is a JSON text. */
  lemma DumpIsJson(j: Json)
    requires Dumpable(j)
    ensures Accepts(Dump(j))
  {
    ValueRuns(START, j);
  }

  // ----- how characters are written

  const WRITTEN_SHORT := "\"\\\U{08}\U{0C}\n\r\t"
  const SHORT_LETTERS := "\"\\bfnrt"
  const DUMP_DIGITS := "0123456789abcdef"

  /**
   Seven characters are written as a backslash and a letter, the other control characters as \u and
   four small hexadecimal digits, and the rest as they are.
   */
  lemma EscapesWritten(c: char)
    ensures forall i :: 0 <= i < 7 && c == WRITTEN_SHORT[i] ==> Escape(c) == "\\" + [SHORT_LETTERS[i]]
    ensures c !in WRITTEN_SHORT && c as int < 0x20 ==>
              Escape(c) == "\\u00" + [DUMP_DIGITS[c as int / 16], DUMP_DIGITS[c as int % 16]]
    ensures c !in WRITTEN_SHORT && c as int >= 0x20 ==> Escape(c) == [c]
  {
    if c as int < 0x20 {
      DigitWritten(c as int / 16);
      DigitWritten(c as int % 16);
    }
    assert WRITTEN_SHORT[0] == '"' && WRITTEN_SHORT[1] == '\\' && WRITTEN_SHORT[2] == 8 as char;
    assert WRITTEN_SHORT[3] == 12 as char && WRITTEN_SHORT[4] == '\n' && WRITTEN_SHORT[5] == '\r' && WRITTEN_SHORT[6] == '\t';
  }

  lemma DigitWritten(n: nat)
    requires n < 16
    ensures HexDigit(n) == DUMP_DIGITS[n]
  {
  }
}

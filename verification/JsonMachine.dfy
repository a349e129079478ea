/**
 JSON texts (RFC 8259, sections 2 to 7) as the language of a character-level pushdown machine.
 Characters are the bytes of a std::string. `Accepts(s)` stands for "the JSON library parses s":
 escapes, surrogate pairs and UTF-8 sequences are checked as that library checks them.
 */
module JsonMachine {
  import opened Base

  datatype Container = InObject | InArray

  /** The part of a number that has been read (section 6). */
  datatype NumberPart = Minus | Zero | Integer | Point | Fraction | Exponent | ExponentSign | ExponentDigits

  /**
   Where a string is (section 7). `Hex` counts the digits of a \u escape; `low` says that the
   escape must be the second half of a surrogate pair. `Utf8` lists the byte ranges still to come.
   */
  datatype TextPart =
    | Plain
    | Backslash
    | Hex(read: nat, code: nat, low: bool)
    | PairSlash
    | PairLetter
    | Utf8(rest: seq<(int, int)>)

  datatype Mode =
    | Value
    | ArrayFirst
    | ObjectFirst
    | ObjectKey
    | Colon
    | Text(key: bool, part: TextPart)
    | Literal(rest: string)
    | Number(number: NumberPart)
    | After

  /** What is expected next, and the open containers, innermost last. */
  datatype State = State(mode: Mode, stack: seq<Container>)

  const START := State(Value, [])

  const BLANKS := " \n\r\t"

  function Top(stack: seq<Container>): Container
    requires stack != []
  {
    stack[|stack| - 1]
  }

  function Pop(stack: seq<Container>): seq<Container>
    requires stack != []
  {
    stack[..|stack| - 1]
  }

  predicate NumberComplete(p: NumberPart) {
    p.Zero? || p.Integer? || p.Fraction? || p.ExponentDigits?
  }

  function NumberStep(p: NumberPart, c: char): Option<NumberPart> {
    match p
    case Minus => if c == '0' then Some(Zero) else if IsDigit(c) then Some(Integer) else None
    case Zero => AfterInteger(c)
    case Integer => if IsDigit(c) then Some(Integer) else AfterInteger(c)
    case Point => if IsDigit(c) then Some(Fraction) else None
    case Fraction =>
      if IsDigit(c) then Some(Fraction) else if c == 'e' || c == 'E' then Some(Exponent) else None
    case Exponent =>
      if c == '+' || c == '-' then Some(ExponentSign) else if IsDigit(c) then Some(ExponentDigits) else None
    case ExponentSign => if IsDigit(c) then Some(ExponentDigits) else None
    case ExponentDigits => if IsDigit(c) then Some(ExponentDigits) else None
  }

  function AfterInteger(c: char): Option<NumberPart> {
    if c == '.' then Some(Point) else if c == 'e' || c == 'E' then Some(Exponent) else None
  }

  /** The code unit of a finished \u escape must be paired as section 7 says. */
  function HexDone(code: nat, low: bool): Option<TextPart> {
    if low then if 0xDC00 <= code <= 0xDFFF then Some(Plain) else None
    else if 0xD800 <= code <= 0xDBFF then Some(PairSlash)
    else if 0xDC00 <= code <= 0xDFFF then None
    else Some(Plain)
  }

  /** The continuation bytes a UTF-8 lead byte calls for (RFC 3629, section 4). */
  function Continuation(c: int): Option<seq<(int, int)>> {
    var any := (0x80, 0xBF);
    if 0xC2 <= c <= 0xDF then Some([any])
    else if c == 0xE0 then Some([(0xA0, 0xBF), any])
    else if c == 0xED then Some([(0x80, 0x9F), any])
    else if 0xE1 <= c <= 0xEF then Some([any, any])
    else if c == 0xF0 then Some([(0x90, 0xBF), any, any])
    else if 0xF1 <= c <= 0xF3 then Some([any, any, any])
    else if c == 0xF4 then Some([(0x80, 0x8F), any, any])
    else None
  }

  /** A character inside a string, other than a closing quote. */
  function TextStep(p: TextPart, c: char): Option<TextPart> {
    match p
    case Plain =>
      if c == '\\' then Some(Backslash)
      else if c as int < 0x20 then None
      else if c as int < 0x80 then Some(Plain)
      else (match Continuation(c as int)
            case None => None
            case Some(rest) => Some(Utf8(rest)))
    case Backslash =>
      if c in "\"\\/bfnrt" then Some(Plain) else if c == 'u' then Some(Hex(0, 0, false)) else None
    case Hex(read, code, low) =>
      (match HexValue(c)
       case None => None
       case Some(v) =>
         if read < 3 then Some(Hex(read + 1, code * 16 + v, low)) else HexDone(code * 16 + v, low))
    case PairSlash => if c == '\\' then Some(PairLetter) else None
    case PairLetter => if c == 'u' then Some(Hex(0, 0, true)) else None
    case Utf8(rest) =>
      if rest == [] || !(rest[0].0 <= c as int <= rest[0].1) then None
      else if |rest| == 1 then Some(Plain)
      else Some(Utf8(rest[1..]))
  }

  function StartValue(st: State, c: char): Option<State> {
    if c == '{' then Some(State(ObjectFirst, st.stack + [InObject]))
    else if c == '[' then Some(State(ArrayFirst, st.stack + [InArray]))
    else if c == '"' then Some(st.(mode := Text(false, Plain)))
    else if c == 't' then Some(st.(mode := Literal("rue")))
    else if c == 'f' then Some(st.(mode := Literal("alse")))
    else if c == 'n' then Some(st.(mode := Literal("ull")))
    else if c == '-' then Some(st.(mode := Number(Minus)))
    else if c == '0' then Some(st.(mode := Number(Zero)))
    else if IsDigit(c) then Some(st.(mode := Number(Integer)))
    else None
  }

  function Close(st: State, container: Container): Option<State> {
    if st.stack != [] && Top(st.stack) == container then Some(State(After, Pop(st.stack))) else None
  }

  /** A character outside strings, literals and numbers. */
  function Between(st: State, c: char): Option<State> {
    if c in BLANKS then Some(st)
    else match st.mode
      case Value => StartValue(st, c)
      case ArrayFirst => if c == ']' then Close(st, InArray) else StartValue(st, c)
      case ObjectFirst =>
        if c == '}' then Close(st, InObject)
        else if c == '"' then Some(st.(mode := Text(true, Plain)))
        else None
      case ObjectKey => if c == '"' then Some(st.(mode := Text(true, Plain))) else None
      case Colon => if c == ':' then Some(st.(mode := Value)) else None
      case After =>
        if c == '}' then Close(st, InObject)
        else if c == ']' then Close(st, InArray)
        else if c == ',' && st.stack != [] then
          Some(st.(mode := if Top(st.stack).InObject? then ObjectKey else Value))
        else None
      case _ => None
  }

  function Step(st: State, c: char): Option<State> {
    match st.mode
    case Text(key, p) =>
      if p.Plain? && c == '"' then Some(st.(mode := if key then Colon else After))
      else (match TextStep(p, c)
            case None => None
            case Some(q) => Some(st.(mode := Text(key, q))))
    case Literal(rest) =>
      if rest == [] || c != rest[0] then None
      else Some(st.(mode := if |rest| == 1 then After else Literal(rest[1..])))
    case Number(p) =>
      (match NumberStep(p, c)
       case Some(q) => Some(st.(mode := Number(q)))
       case None => if NumberComplete(p) then Between(st.(mode := After), c) else None)
    case _ => Between(st, c)
  }

  function Run(st: State, s: string): Option<State>
    decreases |s|
  {
    if s == [] then Some(st)
    else match Step(st, s[0])
      case None => None
      case Some(next) => Run(next, s[1..])
  }

  predicate Accepting(st: State) {
    st.stack == [] && (st.mode.After? || (st.mode.Number? && NumberComplete(st.mode.number)))
  }

  predicate AcceptsFrom(st: State, s: string) {
    var r := Run(st, s);
    r.Some? && Accepting(r.value)
  }

  /** The text is a JSON text. */
  predicate Accepts(s: string) {
    AcceptsFrom(START, s)
  }

  /** No JSON error has been met in the text, which may have stopped anywhere. */
  predicate Live(s: string) {
    Run(START, s).Some?
  }

  function StateOf(s: string): State
    requires Live(s)
  {
    Run(START, s).value
  }

  // ----- running over concatenations

  lemma {:induction false} RunAppend(st: State, a: string, b: string)
    ensures Run(st, a + b) == if Run(st, a).None? then None else Run(Run(st, a).value, b)
    decreases |a|
  {
    if a == [] {
      assert a + b == b;
    } else {
      assert (a + b)[0] == a[0] && (a + b)[1..] == a[1..] + b;
      if Step(st, a[0]).Some? {
        RunAppend(Step(st, a[0]).value, a[1..], b);
      }
    }
  }

  lemma RunSnoc(st: State, a: string, c: char)
    ensures Run(st, a + [c]) == if Run(st, a).None? then None else Step(Run(st, a).value, c)
  {
    RunAppend(st, a, [c]);
    if Run(st, a).Some? {
      var mid := Run(st, a).value;
      assert [c][1..] == [];
      assert Run(mid, [c]) == match Step(mid, [c][0]) case None => None case Some(next) => Run(next, [c][1..]);
    }
  }

  lemma AcceptsAppend(s: string, t: string)
    ensures Accepts(s + t) <==> Live(s) && AcceptsFrom(StateOf(s), t)
  {
    RunAppend(START, s, t);
  }

  lemma LivePrefix(s: string, n: nat)
    requires Live(s) && n <= |s|
    ensures Live(s[..n])
  {
    assert s == s[..n] + s[n..];
    RunAppend(START, s[..n], s[n..]);
  }

  // ----- closing what is open

  /** The brackets that close the open containers, innermost first. */
  function Closing(stack: seq<Container>): (r: string)
    ensures |r| == |stack|
    ensures forall c :: c in r ==> c == '}' || c == ']'
  {
    if stack == [] then "" else [if Top(stack).InObject? then '}' else ']'] + Closing(Pop(stack))
  }

  /**
   Reading the closers of `wanted` after a complete value unwinds the machine to an accepting
   state, and only the closers of the containers that are really open do.
   */
  lemma {:induction false} Unwind(stack: seq<Container>, wanted: seq<Container>)
    ensures AcceptsFrom(State(After, stack), Closing(wanted)) <==> stack == wanted
  {
    hide Step;
    var st := State(After, stack);
    if wanted == [] {
      assert Run(st, []) == Some(st);
    } else {
      var c := Closing(wanted)[0];
      assert Closing(wanted)[1..] == Closing(Pop(wanted));
      assert wanted == Pop(wanted) + [Top(wanted)];
      CloserSteps(stack, Top(wanted));
      if stack != [] && Top(stack) == Top(wanted) {
        assert stack == Pop(stack) + [Top(stack)];
        Unwind(Pop(stack), Pop(wanted));
      }
    }
  }

  lemma CloserSteps(stack: seq<Container>, container: Container)
    ensures Step(State(After, stack), if container.InObject? then '}' else ']')
            == if stack != [] && Top(stack) == container then Some(State(After, Pop(stack))) else None
  {
  }
}

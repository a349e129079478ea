/**
 The value that a JSON text denotes: while the machine of JsonMachine reads the text, the value is
 built as the JSON library builds it. Members are listed as they are written.
 */
module JsonValues {
  import opened Base
  import opened JsonMachine
  import opened JsonShape
  import opened JsonDump

  // ----- strings

  /** The character a one-letter escape stands for (RFC 8259, section 7). */
  function Meaning(c: char): char {
    match c
    case 'b' => 8 as char
    case 'f' => 12 as char
    case 'n' => '\n'
    case 'r' => '\r'
    case 't' => '\t'
    case _ => c
  }

  function DigitValue(c: char): (v: nat)
    ensures v < 16
  {
    if HexValue(c).Some? then HexValue(c).value else 0
  }

  /** The code unit that four hexadecimal digits stand for. */
  function CodeUnit(raw: string, i: nat): (v: nat)
    requires i + 4 <= |raw|
    ensures v < 0x10000
  {
    ((DigitValue(raw[i]) * 16 + DigitValue(raw[i + 1])) * 16 + DigitValue(raw[i + 2])) * 16 + DigitValue(raw[i + 3])
  }

  /** The bytes of a code point in UTF-8 (RFC 3629, section 3). */
  function Utf8Bytes(code: nat): string
    requires code < 0x110000
  {
    if code < 0x80 then [code as char]
    else if code < 0x800 then [(0xC0 + code / 0x40) as char, (0x80 + code % 0x40) as char]
    else if code < 0x10000 then
      [(0xE0 + code / 0x1000) as char, (0x80 + code / 0x40 % 0x40) as char, (0x80 + code % 0x40) as char]
    else
      [(0xF0 + code / 0x40000) as char, (0x80 + code / 0x1000 % 0x40) as char,
       (0x80 + code / 0x40 % 0x40) as char, (0x80 + code % 0x40) as char]
  }

  /** The string that characters between quotes stand for. */
  function Unescaped(raw: string): string {
    if raw == "" then ""
    else if raw[0] != '\\' || |raw| == 1 then [raw[0]] + Unescaped(raw[1..])
    else if raw[1] != 'u' || |raw| < 6 then [Meaning(raw[1])] + Unescaped(raw[2..])
    else
      var unit := CodeUnit(raw, 2);
      if 0xD800 <= unit <= 0xDBFF && |raw| >= 12 then
        Utf8Bytes(0x10000 + (unit - 0xD800) * 0x400 + CodeUnit(raw, 8) % 0x400) + Unescaped(raw[12..])
      else Utf8Bytes(unit) + Unescaped(raw[6..])
  }

  // ----- values under way

  /** A container under way; in an object, the key whose value is awaited. */
  datatype Frame = ArrayFrame(items: seq<Json>) | ObjectFrame(members: seq<Member>, key: string)

  /** The containers under way, innermost last; the characters of the token under way; the finished value. */
  datatype Build = Build(frames: seq<Frame>, token: string, value: Json)

  datatype Reader = Reader(st: State, b: Build)

  const BEGIN := Reader(START, Build([], "", Null))

  function Added(f: Frame, v: Json): Frame {
    match f
    case ArrayFrame(items) => ArrayFrame(items + [v])
    case ObjectFrame(members, key) => ObjectFrame(members + [Member(key, v)], "")
  }

  function Closed(f: Frame): Json {
    match f
    case ArrayFrame(items) => Arr(items)
    case ObjectFrame(members, _) => Obj(members)
  }

  /** A complete value goes into the innermost container, or is the value of the text. */
  function Put(b: Build, v: Json): Build {
    if b.frames == [] then Build([], "", v)
    else
      var n := |b.frames| - 1;
      Build(b.frames[..n] + [Added(b.frames[n], v)], "", b.value)
  }

  function Keyed(b: Build, key: string): Build {
    if b.frames == [] || !b.frames[|b.frames| - 1].ObjectFrame? then b
    else
      var n := |b.frames| - 1;
      Build(b.frames[..n] + [b.frames[n].(key := key)], "", b.value)
  }

  /** A character outside strings, literals and numbers. */
  function Structure(b: Build, c: char): Build {
    if c == '{' then Build(b.frames + [ObjectFrame([], "")], "", b.value)
    else if c == '[' then Build(b.frames + [ArrayFrame([])], "", b.value)
    else if c == '}' || c == ']' then
      if b.frames == [] then b
      else Put(Build(b.frames[..|b.frames| - 1], "", b.value), Closed(b.frames[|b.frames| - 1]))
    else if c in BLANKS || c == ',' || c == ':' then b
    else if c == '"' then b.(token := "")
    else b.(token := [c])
  }

  function LiteralValue(token: string): Json {
    if token != "" && token[0] == 't' then Bool(true) else if token != "" && token[0] == 'f' then Bool(false) else Null
  }

  /** `show` gives the text in which the library writes a number that it has read. */
  function Built(show: string -> string, st: State, b: Build, c: char): Build {
    match st.mode
    case Text(key, p) =>
      if p.Plain? && c == '"' then
        if key then Keyed(b, Unescaped(b.token)) else Put(b, Str(Unescaped(b.token)))
      else b.(token := b.token + [c])
    case Literal(rest) =>
      if |rest| <= 1 then Put(b, LiteralValue(b.token)) else b.(token := b.token + [c])
    case Number(p) =>
      if NumberStep(p, c).Some? then b.(token := b.token + [c]) else Structure(Put(b, Num(show(b.token))), c)
    case _ => Structure(b, c)
  }

  function Next(show: string -> string, r: Reader, c: char): Option<Reader> {
    match Step(r.st, c)
    case None => None
    case Some(st) => Some(Reader(st, Built(show, r.st, r.b, c)))
  }

  function Read(show: string -> string, r: Reader, s: string): Option<Reader>
    decreases |s|
  {
    if s == [] then Some(r)
    else match Next(show, r, s[0])
      case None => None
      case Some(next) => Read(show, next, s[1..])
  }

  /** The end of the text completes a number. */
  function Finish(show: string -> string, r: Reader): Json {
    if r.st.mode.Number? then Put(r.b, Num(show(r.b.token))).value else r.b.value
  }

  lemma {:induction false} ReadState(show: string -> string, r: Reader, s: string)
    ensures Read(show, r, s).Some? <==> Run(r.st, s).Some?
    ensures Read(show, r, s).Some? ==> Read(show, r, s).value.st == Run(r.st, s).value
    decreases |s|
  {
    hide Step, Built;
    if s != [] && Next(show, r, s[0]).Some? {
      ReadState(show, Next(show, r, s[0]).value, s[1..]);
    }
  }

  /** The value of a JSON text. */
  function ValueOf(show: string -> string, s: string): Json
    requires Accepts(s)
  {
    ReadState(show, BEGIN, s);
    Finish(show, Read(show, BEGIN, s).value)
  }

  lemma {:induction false} ReadAppend(show: string -> string, r: Reader, a: string, b: string)
    ensures Read(show, r, a + b)
            == if Read(show, r, a).None? then None else Read(show, Read(show, r, a).value, b)
    decreases |a|
  {
    hide Next;
    if a == [] {
      assert a + b == b;
    } else {
      assert (a + b)[0] == a[0] && (a + b)[1..] == a[1..] + b;
      if Next(show, r, a[0]).Some? {
        ReadAppend(show, Next(show, r, a[0]).value, a[1..], b);
      }
    }
  }

  lemma ReadOne(show: string -> string, r: Reader, c: char)
    ensures Read(show, r, [c]) == Next(show, r, c)
  {
    hide Next;
    assert [c][1..] == [];
    assert Next(show, r, c).Some? ==> Read(show, Next(show, r, c).value, []) == Next(show, r, c);
  }

  lemma ReadSnoc(show: string -> string, r: Reader, a: string, c: char)
    ensures Read(show, r, a + [c])
            == if Read(show, r, a).None? then None else Next(show, Read(show, r, a).value, c)
  {
    hide Next, Read;
    ReadAppend(show, r, a, [c]);
    if Read(show, r, a).Some? {
      ReadOne(show, Read(show, r, a).value, c);
    }
  }

  // ----- reading back what was dumped

  /** Where a string goes on, its characters are collected. */
  lemma {:induction false} TextReads(show: string -> string, r: Reader, s: string)
    requires r.st.mode.Text? && '"' !in s && Run(r.st, s).Some?
    ensures Run(r.st, s).value.mode.Text? && Run(r.st, s).value.stack == r.st.stack
    ensures Run(r.st, s).value.mode.key == r.st.mode.key
    ensures Read(show, r, s) == Some(Reader(Run(r.st, s).value, r.b.(token := r.b.token + s)))
    decreases |s|
  {
    hide TextStep;
    if s == [] {
      assert r.b.token + s == r.b.token;
    } else {
      assert s[0] in s && '"' !in s[1..];
      var next := Next(show, r, s[0]).value;
      TextReads(show, next, s[1..]);
      assert r.b.token + [s[0]] + s[1..] == r.b.token + s;
    }
  }

  lemma EscapeReads(show: string -> string, r: Reader, c: char)
    requires r.st.mode.Text? && r.st.mode.part.Plain? && c as int < 0x80
    ensures Read(show, r, Escape(c)) == Some(r.(b := r.b.(token := r.b.token + Escape(c))))
  {
    EscapeRuns(r.st.mode.key, r.st.stack, c);
    if c == '"' {
      var slash := Reader(r.st.(mode := Text(r.st.mode.key, Backslash)), r.b.(token := r.b.token + ['\\']));
      assert Escape(c) == ['\\'] + ['"'];
      assert Next(show, r, '\\') == Some(slash);
      ReadOne(show, r, '\\');
      ReadSnoc(show, r, ['\\'], '"');
      assert r.b.token + ['\\'] + ['"'] == r.b.token + Escape(c);
    } else {
      NoQuote(c);
      TextReads(show, r, Escape(c));
    }
  }

  lemma NoQuote(c: char)
    requires c != '"'
    ensures '"' !in Escape(c)
  {
  }

  lemma {:induction false} EscapeAllReads(show: string -> string, r: Reader, s: string)
    requires r.st.mode.Text? && r.st.mode.part.Plain? && Ascii(s)
    ensures Read(show, r, EscapeAll(s)) == Some(r.(b := r.b.(token := r.b.token + EscapeAll(s))))
    decreases |s|
  {
    hide Escape, Next;
    if s == [] {
      assert r.b.token + EscapeAll(s) == r.b.token;
    } else {
      EscapeReads(show, r, s[0]);
      var next := r.(b := r.b.(token := r.b.token + Escape(s[0])));
      ReadAppend(show, r, Escape(s[0]), EscapeAll(s[1..]));
      EscapeAllReads(show, next, s[1..]);
      assert r.b.token + Escape(s[0]) + EscapeAll(s[1..]) == r.b.token + EscapeAll(s);
    }
  }

  /** Escapes of one, two and six characters, in front of others. */
  lemma UnescapedOne(c: char, rest: string)
    requires c != '\\'
    ensures Unescaped([c] + rest) == [c] + Unescaped(rest)
  {
    assert ([c] + rest)[1..] == rest;
  }

  lemma UnescapedTwo(c: char, rest: string)
    requires c != 'u'
    ensures Unescaped(['\\', c] + rest) == [Meaning(c)] + Unescaped(rest)
  {
    assert (['\\', c] + rest)[2..] == rest;
  }

  lemma UnescapedSix(raw: string, c: char, rest: string)
    requires |raw| >= 6 && raw[0] == '\\' && raw[1] == 'u' && CodeUnit(raw, 2) == c as int < 0x80 && raw[6..] == rest
    ensures Unescaped(raw) == [c] + Unescaped(rest)
  {
    hide CodeUnit;
  }

  /** Unescaping undoes escaping, character by character. */
  lemma UnescapedEscape(c: char, rest: string)
    requires c as int < 0x80
    ensures Unescaped(Escape(c) + rest) == [c] + Unescaped(rest)
  {
    var e := Escape(c);
    EscapeForms(c, e);
    hide Escape, Unescaped;
    if |e| == 1 {
      UnescapedOne(c, rest);
    } else if |e| == 2 {
      UnescapedTwo(e[1], rest);
      assert e == ['\\', e[1]];
    } else {
      var raw := e + rest;
      ControlUnit(raw, c);
      assert raw[6..] == rest;
      UnescapedSix(raw, c, rest);
    }
  }

  lemma EscapeForms(c: char, e: string)
    requires e == Escape(c)
    ensures |e| == 1 ==> e == [c] && c != '\\'
    ensures |e| == 2 ==> e[0] == '\\' && e[1] != 'u' && Meaning(e[1]) == c
    ensures |e| != 1 && |e| != 2 ==> |e| == 6 && c as int < 0x20
  {
  }

  lemma ControlUnit(raw: string, c: char)
    requires c as int < 0x20 && |Escape(c)| == 6 && Escape(c) <= raw
    ensures raw[0] == '\\' && raw[1] == 'u' && CodeUnit(raw, 2) == c as int
  {
    var h, l := c as int / 16, c as int % 16;
    HexZero();
    HexDigitValue(h);
    HexDigitValue(l);
    assert raw[2] == raw[3] == '0' && raw[4] == HexDigit(h) && raw[5] == HexDigit(l);
  }

  lemma {:induction false} UnescapedEscapeAll(s: string)
    requires Ascii(s)
    ensures Unescaped(EscapeAll(s)) == s
    decreases |s|
  {
    hide Escape;
    if s != [] {
      UnescapedEscape(s[0], EscapeAll(s[1..]));
      UnescapedEscapeAll(s[1..]);
      assert s == [s[0]] + s[1..];
    }
  }

  /** A token may begin here. */
  predicate BetweenTokens(st: State) {
    !st.mode.Text? && !st.mode.Literal? && !st.mode.Number?
  }

  lemma QuoteOpensToken(show: string -> string, r: Reader, next: Reader)
    requires BetweenTokens(r.st) && Step(r.st, '"') == Some(next.st) && next.b == r.b.(token := "")
    ensures Read(show, r, ['"']) == Some(next)
  {
    hide Step;
    ReadOne(show, r, '"');
  }

  lemma QuoteEndsToken(show: string -> string, r: Reader, key: bool, s: string)
    requires r.st.mode == Text(key, Plain) && Unescaped(r.b.token) == s
    ensures Next(show, r, '"')
            == Some(Reader(State(if key then Colon else After, r.st.stack), if key then Keyed(r.b, s) else Put(r.b, Str(s))))
  {
    hide Unescaped, Keyed, Put;
  }

  lemma StringReads(show: string -> string, r: Reader, key: bool, s: string)
    requires Ascii(s) && BetweenTokens(r.st) && Step(r.st, '"') == Some(State(Text(key, Plain), r.st.stack))
    requires key ==> r.b.frames != [] && r.b.frames[|r.b.frames| - 1].ObjectFrame?
    ensures Read(show, r, DumpString(s))
            == Some(Reader(State(if key then Colon else After, r.st.stack), if key then Keyed(r.b, s) else Put(r.b, Str(s))))
  {
    hide Read, Next, Step, Unescaped, EscapeAll;
    var inside := Reader(State(Text(key, Plain), r.st.stack), r.b.(token := ""));
    var end := inside.(b := r.b.(token := EscapeAll(s)));
    QuoteOpensToken(show, r, inside);
    EscapeAllReads(show, inside, s);
    assert "" + EscapeAll(s) == EscapeAll(s);
    ReadAppend(show, r, ['"'], EscapeAll(s));
    ReadSnoc(show, r, ['"'] + EscapeAll(s), '"');
    UnescapedEscapeAll(s);
    QuoteEndsToken(show, end, key, s);
    assert DumpString(s) == ['"'] + EscapeAll(s) + ['"'];
  }

  lemma {:induction false} LiteralReads(show: string -> string, r: Reader, s: string)
    requires r.st.mode == Literal(s) && s != [] && r.b.token != ""
    ensures Read(show, r, s) == Some(Reader(State(After, r.st.stack), Put(r.b, LiteralValue(r.b.token))))
    decreases |s|
  {
    if |s| > 1 {
      var next := Reader(State(Literal(s[1..]), r.st.stack), r.b.(token := r.b.token + [s[0]]));
      assert Next(show, r, s[0]) == Some(next);
      LiteralReads(show, next, s[1..]);
      assert LiteralValue(next.b.token) == LiteralValue(r.b.token);
    } else {
      assert s == [s[0]];
      ReadOne(show, r, s[0]);
    }
  }

  function NumberRun(p: NumberPart, s: string): Option<NumberPart>
    decreases |s|
  {
    if s == [] then Some(p)
    else match NumberStep(p, s[0])
      case None => None
      case Some(q) => NumberRun(q, s[1..])
  }

  /** A number text is read by the number's own steps. */
  lemma {:induction false} NumberAlone(st: State, s: string)
    requires st.mode.Number? && st.stack == []
    requires var r := Run(st, s); r.Some? && r.value.stack == [] && r.value.mode.Number?
    ensures NumberRun(st.mode.number, s) == Some(Run(st, s).value.mode.number)
    decreases |s|
  {
    if s != [] {
      var next := Step(st, s[0]).value;
      if next.mode.Number? {
        NumberAlone(next, s[1..]);
      } else {
        NeverBack(next, s[1..]);
      }
    }
  }

  lemma {:induction false} NumberReads(show: string -> string, r: Reader, s: string)
    requires r.st.mode.Number? && NumberRun(r.st.mode.number, s).Some?
    ensures Read(show, r, s)
            == Some(Reader(r.st.(mode := Number(NumberRun(r.st.mode.number, s).value)), r.b.(token := r.b.token + s)))
    decreases |s|
  {
    hide Structure, Put;
    if s == [] {
      assert r.b.token + s == r.b.token;
    } else {
      NumberReads(show, Next(show, r, s[0]).value, s[1..]);
      assert r.b.token + [s[0]] + s[1..] == r.b.token + s;
    }
  }

  /** A value has been read: completely, or a number that may still go on. */
  predicate Complete(show: string -> string, q: Reader, stack: seq<Container>, b: Build) {
    && q.st.stack == stack
    && if q.st.mode.Number? then NumberComplete(q.st.mode.number) && Put(q.b, Num(show(q.b.token))) == b
       else q.st.mode.After? && q.b == b
  }

  lemma CompleteNext(show: string -> string, q: Reader, stack: seq<Container>, b: Build, c: char)
    requires Complete(show, q, stack, b) && c in ",]}"
    ensures Next(show, q, c) == Next(show, Reader(State(After, stack), b), c)
  {
    hide Put, Structure;
  }

  /** Every number in the value is shown as it is. */
  predicate ShownAsIs(show: string -> string, j: Json)
    decreases j, 0
  {
    match j
    case Num(text) => show(text) == text
    case Arr(items) => forall i :: 0 <= i < |items| ==> ShownAsIs(show, items[i])
    case Obj(members) => forall i :: 0 <= i < |members| ==> ShownAsIs(show, members[i].value)
    case _ => true
  }

  lemma NumberValueReads(show: string -> string, r: Reader, text: string)
    requires Starts(r.st) && NumberText(text) && show(text) == text
    ensures var q := Read(show, r, text); q.Some? && Complete(show, q.value, r.st.stack, Put(r.b, Num(text)))
  {
    var first := Step(START, text[0]).value;
    NumberAlone(first, text[1..]);
    var next := Reader(State(first.mode, r.st.stack), r.b.(token := [text[0]]));
    assert Next(show, r, text[0]) == Some(next);
    NumberReads(show, next, text[1..]);
    assert [text[0]] + text[1..] == text;
  }

  lemma LiteralStarts(show: string -> string, r: Reader, j: Json, s: string, next: Reader)
    requires Starts(r.st) && (j.Null? || j.Bool?) && s == Dump(j)
    requires next == Reader(State(Literal(s[1..]), r.st.stack), r.b.(token := [s[0]]))
    ensures Next(show, r, s[0]) == Some(next) && LiteralValue(next.b.token) == j && |s| > 1
  {
    hide Put;
  }

  lemma LiteralValueReads(show: string -> string, r: Reader, j: Json)
    requires Starts(r.st) && (j.Null? || j.Bool?)
    ensures Read(show, r, Dump(j)) == Some(Reader(State(After, r.st.stack), Put(r.b, j)))
  {
    hide Next, Put, Dump, LiteralValue;
    var s := Dump(j);
    DumpSolid(j);
    var next := Reader(State(Literal(s[1..]), r.st.stack), r.b.(token := [s[0]]));
    LiteralStarts(show, r, j, s, next);
    LiteralReads(show, next, s[1..]);
    PutToken(r.b, [s[0]], j);
  }

  lemma DumpSolid(j: Json)
    requires j.Null? || j.Bool?
    ensures Dump(j) != []
  {
  }

  lemma PutToken(b: Build, token: string, v: Json)
    ensures Put(b.(token := token), v) == Put(b, v)
  {
  }

  /** Reading a value's dump where a value may start puts that value there. */
  lemma {:induction false} ValueReads(show: string -> string, r: Reader, j: Json)
    requires Starts(r.st) && Dumpable(j) && ShownAsIs(show, j)
    ensures var q := Read(show, r, Dump(j)); q.Some? && Complete(show, q.value, r.st.stack, Put(r.b, j))
    decreases j, 0
  {
    hide Read, Put;
    match j
    case Null => LiteralValueReads(show, r, j);
    case Bool(_) => LiteralValueReads(show, r, j);
    case Num(text) => NumberValueReads(show, r, text);
    case Str(s) => StringReads(show, r, false, s);
    case Arr(items) => ArrayReads(show, r, items);
    case Obj(members) => ObjectReads(show, r, members);
  }

  /** The innermost container, with what is below it. */
  function Within(b: Build, f: Frame): Build {
    Build(b.frames + [f], "", b.value)
  }

  lemma PutWithin(b: Build, f: Frame, v: Json)
    ensures Put(Within(b, f), v) == Within(b, Added(f, v))
  {
    assert (b.frames + [f])[..|b.frames|] == b.frames;
  }

  lemma Opens(show: string -> string, r: Reader, c: char, next: Reader)
    requires Starts(r.st) && (c == '[' || c == '{')
    requires next.st == State(if c == '[' then ArrayFirst else ObjectFirst, r.st.stack + [if c == '[' then InArray else InObject])
    requires next.b == Within(r.b, if c == '[' then ArrayFrame([]) else ObjectFrame([], ""))
    ensures Read(show, r, [c]) == Some(next)
  {
    ReadOne(show, r, c);
  }

  lemma Closes(show: string -> string, q: Reader, b: Build, stack: seq<Container>, f: Frame)
    requires Complete(show, q, stack + [if f.ArrayFrame? then InArray else InObject], Within(b, f))
    ensures Next(show, q, if f.ArrayFrame? then ']' else '}') == Some(Reader(State(After, stack), Put(b, Closed(f))))
  {
    hide Put;
    var inner := stack + [if f.ArrayFrame? then InArray else InObject];
    CompleteNext(show, q, inner, Within(b, f), if f.ArrayFrame? then ']' else '}');
    assert Pop(inner) == stack && (b.frames + [f])[..|b.frames|] == b.frames;
    PutSame(b, Closed(f));
  }

  lemma PutSame(b: Build, v: Json)
    ensures Put(Build(b.frames, "", b.value), v) == Put(b, v)
  {
  }

  lemma ClosesEmpty(show: string -> string, q: Reader, b: Build, stack: seq<Container>, f: Frame)
    requires f == ArrayFrame([]) || f == ObjectFrame([], "")
    requires q == Reader(State(if f.ArrayFrame? then ArrayFirst else ObjectFirst,
                               stack + [if f.ArrayFrame? then InArray else InObject]), Within(b, f))
    ensures Next(show, q, if f.ArrayFrame? then ']' else '}') == Some(Reader(State(After, stack), Put(b, Closed(f))))
  {
    hide Put;
    assert Pop(q.st.stack) == stack && (b.frames + [f])[..|b.frames|] == b.frames;
    PutSame(b, Closed(f));
  }

  lemma Comma(show: string -> string, q: Reader, stack: seq<Container>, container: Container, b: Build)
    requires Complete(show, q, stack + [container], b)
    ensures Read(show, q, ",")
            == Some(Reader(State(if container.InObject? then ObjectKey else Value, stack + [container]), b))
  {
    hide Put;
    CompleteNext(show, q, stack + [container], b, ',');
    ReadOne(show, q, ',');
    assert [','] == ",";
  }

  lemma {:induction false} ArrayReads(show: string -> string, r: Reader, items: seq<Json>)
    requires Starts(r.st) && forall i :: 0 <= i < |items| ==> Dumpable(items[i]) && ShownAsIs(show, items[i])
    ensures Read(show, r, "[" + DumpItems(items) + "]") == Some(Reader(State(After, r.st.stack), Put(r.b, Arr(items))))
    decreases items, 2
  {
    hide Read, Next, Put, Complete, Dump;
    var inside := Reader(State(ArrayFirst, r.st.stack + [InArray]), Within(r.b, ArrayFrame([])));
    Opens(show, r, '[', inside);
    assert "[" == ['['] && "]" == [']'];
    ReadAppend(show, r, "[", DumpItems(items));
    ReadSnoc(show, r, "[" + DumpItems(items), ']');
    if items == [] {
      ReadNothing(show, inside);
      ClosesEmpty(show, inside, r.b, r.st.stack, ArrayFrame([]));
    } else {
      ValueReads(show, inside, items[0]);
      PutWithin(r.b, ArrayFrame([]), items[0]);
      assert [] + [items[0]] == [items[0]];
      ReadAppend(show, inside, Dump(items[0]), MoreItems(items[1..]));
      var first := Read(show, inside, Dump(items[0])).value;
      MoreItemsRead(show, first, r.st.stack, r.b, [items[0]], items[1..]);
      assert [items[0]] + items[1..] == items;
      Closes(show, Read(show, first, MoreItems(items[1..])).value, r.b, r.st.stack, ArrayFrame(items));
    }
  }

  lemma ReadNothing(show: string -> string, r: Reader)
    ensures Read(show, r, "") == Some(r)
  {
  }

  lemma {:induction false} MoreItemsRead(
    show: string -> string, q: Reader, stack: seq<Container>, b: Build, done: seq<Json>, items: seq<Json>)
    requires Complete(show, q, stack + [InArray], Within(b, ArrayFrame(done)))
    requires forall i :: 0 <= i < |items| ==> Dumpable(items[i]) && ShownAsIs(show, items[i])
    ensures var e := Read(show, q, MoreItems(items));
            e.Some? && Complete(show, e.value, stack + [InArray], Within(b, ArrayFrame(done + items)))
    decreases items, 1
  {
    hide Read, Next, Put, Complete, Dump;
    if items == [] {
      ReadNothing(show, q);
      assert done + items == done;
    } else {
      var next := Reader(State(Value, stack + [InArray]), Within(b, ArrayFrame(done)));
      Comma(show, q, stack, InArray, next.b);
      ReadAppend(show, q, ",", Dump(items[0]) + MoreItems(items[1..]));
      ValueReads(show, next, items[0]);
      PutWithin(b, ArrayFrame(done), items[0]);
      ReadAppend(show, next, Dump(items[0]), MoreItems(items[1..]));
      MoreItemsRead(show, Read(show, next, Dump(items[0])).value, stack, b, done + [items[0]], items[1..]);
      assert done + [items[0]] + items[1..] == done + items;
    }
  }

  lemma KeyedWithin(b: Build, members: seq<Member>, old': string, key: string)
    ensures Keyed(Within(b, ObjectFrame(members, old')), key) == Within(b, ObjectFrame(members, key))
  {
    assert (b.frames + [ObjectFrame(members, old')])[..|b.frames|] == b.frames;
  }

  lemma {:induction false} MemberReads(show: string -> string, r: Reader, b: Build, done: seq<Member>, m: Member)
    requires r.st.mode.ObjectFirst? || r.st.mode.ObjectKey?
    requires r.b == Within(b, ObjectFrame(done, "")) && Ascii(m.key) && Dumpable(m.value) && ShownAsIs(show, m.value)
    ensures var q := Read(show, r, DumpMember(m));
            q.Some? && Complete(show, q.value, r.st.stack, Within(b, ObjectFrame(done + [m], "")))
    decreases m, 1
  {
    hide Read, Put, Complete, Dump, DumpString;
    var colon := Reader(State(Colon, r.st.stack), Within(b, ObjectFrame(done, m.key)));
    var value := colon.(st := State(Value, r.st.stack));
    StringReads(show, r, true, m.key);
    KeyedWithin(b, done, "", m.key);
    ReadAppend(show, r, DumpString(m.key), ":" + Dump(m.value));
    ReadOne(show, colon, ':');
    assert [':'] == ":" && Next(show, colon, ':') == Some(value);
    ReadAppend(show, colon, ":", Dump(m.value));
    ValueReads(show, value, m.value);
    PutWithin(b, ObjectFrame(done, m.key), m.value);
    assert m == Member(m.key, m.value);
  }

  lemma {:induction false} ObjectReads(show: string -> string, r: Reader, ms: seq<Member>)
    requires Starts(r.st)
    requires forall i :: 0 <= i < |ms| ==> Ascii(ms[i].key) && Dumpable(ms[i].value) && ShownAsIs(show, ms[i].value)
    ensures Read(show, r, "{" + DumpMembers(ms) + "}") == Some(Reader(State(After, r.st.stack), Put(r.b, Obj(ms))))
    decreases ms, 2
  {
    hide Read, Next, Put, Complete, Dump, DumpMember;
    var inside := Reader(State(ObjectFirst, r.st.stack + [InObject]), Within(r.b, ObjectFrame([], "")));
    Opens(show, r, '{', inside);
    assert "{" == ['{'] && "}" == ['}'];
    ReadAppend(show, r, "{", DumpMembers(ms));
    ReadSnoc(show, r, "{" + DumpMembers(ms), '}');
    if ms == [] {
      ReadNothing(show, inside);
      ClosesEmpty(show, inside, r.b, r.st.stack, ObjectFrame([], ""));
    } else {
      MemberReads(show, inside, r.b, [], ms[0]);
      assert [] + [ms[0]] == [ms[0]];
      ReadAppend(show, inside, DumpMember(ms[0]), MoreMembers(ms[1..]));
      var first := Read(show, inside, DumpMember(ms[0])).value;
      MoreMembersRead(show, first, r.st.stack, r.b, [ms[0]], ms[1..]);
      assert [ms[0]] + ms[1..] == ms;
      Closes(show, Read(show, first, MoreMembers(ms[1..])).value, r.b, r.st.stack, ObjectFrame(ms, ""));
    }
  }

  lemma {:induction false} MoreMembersRead(
    show: string -> string, q: Reader, stack: seq<Container>, b: Build, done: seq<Member>, ms: seq<Member>)
    requires Complete(show, q, stack + [InObject], Within(b, ObjectFrame(done, "")))
    requires forall i :: 0 <= i < |ms| ==> Ascii(ms[i].key) && Dumpable(ms[i].value) && ShownAsIs(show, ms[i].value)
    ensures var e := Read(show, q, MoreMembers(ms));
            e.Some? && Complete(show, e.value, stack + [InObject], Within(b, ObjectFrame(done + ms, "")))
    decreases ms, 1
  {
    hide Read, Next, Put, Complete, Dump, DumpMember;
    if ms == [] {
      ReadNothing(show, q);
      assert done + ms == done;
    } else {
      var next := Reader(State(ObjectKey, stack + [InObject]), Within(b, ObjectFrame(done, "")));
      Comma(show, q, stack, InObject, next.b);
      ReadAppend(show, q, ",", DumpMember(ms[0]) + MoreMembers(ms[1..]));
      MemberReads(show, next, b, done, ms[0]);
      ReadAppend(show, next, DumpMember(ms[0]), MoreMembers(ms[1..]));
      MoreMembersRead(show, Read(show, next, DumpMember(ms[0])).value, stack, b, done + [ms[0]], ms[1..]);
      assert done + [ms[0]] + ms[1..] == done + ms;
    }
  }

  /** Parsing the dump of a value gives the value back. */
  lemma DumpReadsBack(show: string -> string, j: Json)
    requires Dumpable(j) && ShownAsIs(show, j)
    ensures Accepts(Dump(j)) && ValueOf(show, Dump(j)) == j
  {
    DumpIsJson(j);
    ValueReads(show, BEGIN, j);
  }
}

/**
 Characters in JSON strings: what a string stands for as a sequence of Unicode code points
 (RFC 8259, section 7), and a UTF-8 decoder (RFC 3629, section 3) to read the library's strings with.
 */
module JsonUnicode {
  import opened Base
  import opened JsonMachine
  import opened JsonDump
  import opened JsonValues

  // ----- UTF-8

  /** A code point with the number of bytes it was read from. */
  datatype Sign = Sign(point: nat, size: nat)

  predicate Scalar(point: int) {
    0 <= point <= 0x10FFFF && !(0xD800 <= point <= 0xDFFF)
  }

  predicate IsTail(c: char) {
    0x80 <= c as int < 0xC0
  }

  /** Longer sequences than a code point needs are not UTF-8. */
  function Checked(point: nat, least: nat, size: nat): Option<Sign> {
    if least <= point && Scalar(point) then Some(Sign(point, size)) else None
  }

  /** The code point that a string begins with. */
  function First(s: string): (r: Option<Sign>)
    ensures r.Some? ==> 1 <= r.value.size <= |s| && Scalar(r.value.point)
  {
    if s == "" then None
    else
      var lead := s[0] as int;
      if lead < 0x80 then Some(Sign(lead, 1))
      else if 0xC0 <= lead < 0xE0 && |s| >= 2 && IsTail(s[1]) then
        Checked((lead - 0xC0) * 0x40 + (s[1] as int - 0x80), 0x80, 2)
      else if 0xE0 <= lead < 0xF0 && |s| >= 3 && IsTail(s[1]) && IsTail(s[2]) then
        Checked((lead - 0xE0) * 0x1000 + (s[1] as int - 0x80) * 0x40 + (s[2] as int - 0x80), 0x800, 3)
      else if 0xF0 <= lead < 0xF8 && |s| >= 4 && IsTail(s[1]) && IsTail(s[2]) && IsTail(s[3]) then
        Checked((lead - 0xF0) * 0x40000 + (s[1] as int - 0x80) * 0x1000 + (s[2] as int - 0x80) * 0x40 + (s[3] as int - 0x80),
                0x10000, 4)
      else None
  }

  /** The code points of a string; None where it is not UTF-8. */
  function Decode(s: string): Option<seq<nat>>
    decreases |s|
  {
    if s == "" then Some([])
    else match First(s)
      case None => None
      case Some(sign) =>
        match Decode(s[sign.size..])
        case None => None
        case Some(points) => Some([sign.point] + points)
  }

  lemma FirstAppend(a: string, b: string)
    requires First(a).Some?
    ensures First(a + b) == First(a)
  {
  }

  lemma NothingCoded(s: string)
    ensures Decode(s) == Some([]) <==> s == ""
  {
    hide First;
  }

  lemma DecodeCons(s: string)
    requires Decode(s).Some? && s != ""
    ensures First(s).Some?
    ensures var more := Decode(s[First(s).value.size..]);
            more.Some? && Decode(s) == Some([First(s).value.point] + more.value)
  {
    hide First;
  }

  lemma DecodeFirst(s: string, more: seq<nat>)
    requires s != "" && First(s).Some? && Decode(s[First(s).value.size..]) == Some(more)
    ensures Decode(s) == Some([First(s).value.point] + more)
  {
    hide First;
  }

  lemma {:induction false} DecodeAppend(a: string, b: string)
    requires Decode(a).Some? && Decode(b).Some?
    ensures Decode(a + b) == Some(Decode(a).value + Decode(b).value)
    decreases |a|
  {
    hide First, Decode;
    if a == "" {
      NothingCoded(a);
      assert a + b == b && Decode(a).value + Decode(b).value == Decode(b).value;
    } else {
      DecodeCons(a);
      var n, point := First(a).value.size, First(a).value.point;
      var points := Decode(a[n..]).value;
      DecodeAppend(a[n..], b);
      FirstAppend(a, b);
      assert (a + b)[n..] == a[n..] + b;
      DecodeFirst(a + b, points + Decode(b).value);
      assert [point] + (points + Decode(b).value) == [point] + points + Decode(b).value;
    }
  }

  lemma Six(high: nat, low: nat)
    requires low < 0x40
    ensures (high * 0x40 + low) / 0x40 == high && (high * 0x40 + low) % 0x40 == low
  {
  }

  /** The encoder writes the bytes that the decoder reads. */
  lemma FirstBytes(s: string)
    requires First(s).Some?
    ensures First(s).value.point < 0x110000 && s[..First(s).value.size] == Utf8Bytes(First(s).value.point)
  {
    var sign := First(s).value;
    hide Utf8Bytes;
    if sign.size == 1 {
      ShortBytes(s[0] as nat);
      assert s[..1] == [s[0]];
    } else {
      var b := s[1] as int - 0x80;
      if sign.size == 2 {
        TwoBytes(s[0] as int - 0xC0, b);
        assert s[..2] == [s[0], s[1]];
      } else {
        var c := s[2] as int - 0x80;
        if sign.size == 3 {
          ThreeBytes(s[0] as int - 0xE0, b, c);
          assert s[..3] == [s[0], s[1], s[2]];
        } else {
          FourBytes(s[0] as int - 0xF0, b, c, s[3] as int - 0x80);
          assert s[..4] == [s[0], s[1], s[2], s[3]];
        }
      }
    }
  }

  lemma ShortBytes(a: nat)
    requires a < 0x80
    ensures Utf8Bytes(a) == [a as char]
  {
  }

  lemma TwoBytes(a: nat, b: nat)
    requires a < 0x20 && b < 0x40 && 0x80 <= a * 0x40 + b
    ensures Utf8Bytes(a * 0x40 + b) == [(0xC0 + a) as char, (0x80 + b) as char]
  {
    Six(a, b);
  }

  lemma ThreeBytes(a: nat, b: nat, c: nat)
    requires a < 0x10 && b < 0x40 && c < 0x40 && 0x800 <= a * 0x1000 + b * 0x40 + c
    ensures Utf8Bytes(a * 0x1000 + b * 0x40 + c) == [(0xE0 + a) as char, (0x80 + b) as char, (0x80 + c) as char]
  {
    var point := a * 0x1000 + b * 0x40 + c;
    Six(a * 0x40 + b, c);
    Six(a, b);
    assert point == (a * 0x40 + b) * 0x40 + c && point / 0x1000 == point / 0x40 / 0x40;
  }

  lemma FourBytes(a: nat, b: nat, c: nat, d: nat)
    requires a < 0x08 && b < 0x40 && c < 0x40 && d < 0x40
    requires 0x10000 <= a * 0x40000 + b * 0x1000 + c * 0x40 + d < 0x110000
    ensures Utf8Bytes(a * 0x40000 + b * 0x1000 + c * 0x40 + d)
            == [(0xF0 + a) as char, (0x80 + b) as char, (0x80 + c) as char, (0x80 + d) as char]
  {
    var point := a * 0x40000 + b * 0x1000 + c * 0x40 + d;
    Six((a * 0x40 + b) * 0x40 + c, d);
    Six(a * 0x40 + b, c);
    Six(a, b);
    assert point == ((a * 0x40 + b) * 0x40 + c) * 0x40 + d;
    assert point / 0x1000 == point / 0x40 / 0x40 && point / 0x40000 == point / 0x1000 / 0x40;
  }

  lemma SameFirst(a: string, b: string)
    requires First(a).Some? && First(b).Some? && First(a).value.point == First(b).value.point
    ensures First(a) == First(b) && a[..First(a).value.size] == b[..First(b).value.size]
  {
    hide First, Utf8Bytes;
    FirstBytes(a);
    FirstBytes(b);
    assert |a[..First(a).value.size]| == First(a).value.size && |b[..First(b).value.size]| == First(b).value.size;
  }

  /** No two strings have the same code points. */
  lemma {:induction false} DecodeInjective(a: string, b: string)
    requires Decode(a).Some? && Decode(a) == Decode(b)
    ensures a == b
    decreases |a|
  {
    hide First;
    if a != "" {
      assert Decode(a).value[0] == Decode(b).value[0];
      SameFirst(a, b);
      var n := First(a).value.size;
      assert Decode(a).value[1..] == Decode(a[n..]).value && Decode(b).value[1..] == Decode(b[n..]).value;
      DecodeInjective(a[n..], b[n..]);
      assert a == a[..n] + a[n..] && b == b[..n] + b[n..];
    }
  }

  lemma {:induction false} DecodeOne(s: string)
    requires First(s).Some? && First(s).value.size == |s|
    ensures Decode(s) == Some([First(s).value.point])
  {
    hide First;
    var sign := First(s).value;
    assert s[sign.size..] == "" && Decode("") == Some([]);
    assert [sign.point] + [] == [sign.point];
  }

  lemma Sixes(point: nat)
    requires point < 0x110000
    ensures point == point / 0x40 * 0x40 + point % 0x40
    ensures point / 0x40 == point / 0x1000 * 0x40 + point / 0x40 % 0x40
    ensures point / 0x1000 == point / 0x40000 * 0x40 + point / 0x1000 % 0x40
  {
  }

  lemma TwoFirst(s: string, point: nat)
    requires 0x80 <= point < 0x800 && s == [(0xC0 + point / 0x40) as char, (0x80 + point % 0x40) as char]
    ensures First(s) == Some(Sign(point, 2))
  {
    Sixes(point);
  }

  lemma ThreeFirst(s: string, a: nat, b: nat, c: nat)
    requires a < 0x10 && b < 0x40 && c < 0x40
    requires 0x800 <= a * 0x1000 + b * 0x40 + c && Scalar(a * 0x1000 + b * 0x40 + c)
    requires s == [(0xE0 + a) as char, (0x80 + b) as char, (0x80 + c) as char]
    ensures First(s) == Some(Sign(a * 0x1000 + b * 0x40 + c, 3))
  {
  }

  lemma FourFirst(s: string, a: nat, b: nat, c: nat, d: nat)
    requires a < 0x08 && b < 0x40 && c < 0x40 && d < 0x40
    requires 0x10000 <= a * 0x40000 + b * 0x1000 + c * 0x40 + d < 0x110000
    requires s == [(0xF0 + a) as char, (0x80 + b) as char, (0x80 + c) as char, (0x80 + d) as char]
    ensures First(s) == Some(Sign(a * 0x40000 + b * 0x1000 + c * 0x40 + d, 4))
  {
  }

  lemma EncoderFirst(point: nat)
    requires Scalar(point)
    ensures First(Utf8Bytes(point)) == Some(Sign(point, |Utf8Bytes(point)|))
  {
    var s := Utf8Bytes(point);
    if point < 0x80 {
      assert s == [point as char];
    } else {
      hide First;
      Sixes(point);
      if point < 0x800 {
        TwoFirst(s, point);
      } else if point < 0x10000 {
        ThreeFirst(s, point / 0x1000, point / 0x40 % 0x40, point % 0x40);
      } else {
        FourFirst(s, point / 0x40000, point / 0x1000 % 0x40, point / 0x40 % 0x40, point % 0x40);
      }
    }
  }

  /** The library's encoder writes what the decoder reads. */
  lemma EncoderDecodes(point: nat)
    requires Scalar(point)
    ensures Decode(Utf8Bytes(point)) == Some([point])
  {
    hide First, Decode, Utf8Bytes;
    EncoderFirst(point);
    DecodeOne(Utf8Bytes(point));
  }

  // ----- the units of a string

  const HEX_LETTERS := "0123456789abcdef"
  const HEX_CAPITALS := "0123456789ABCDEF"

  predicate Spells(c: char, digit: nat) {
    digit < 16 && (c == HEX_LETTERS[digit] || c == HEX_CAPITALS[digit])
  }

  predicate SpellsFour(digits: string, unit: nat) {
    && |digits| == 4
    && Spells(digits[0], unit / 0x1000) && Spells(digits[1], unit / 0x100 % 16)
    && Spells(digits[2], unit / 0x10 % 16) && Spells(digits[3], unit % 16)
  }

  /** What a JSON string is written from: a character, a one-letter escape, and \u escapes alone and in pairs. */
  datatype Unit =
    | Shown(bytes: string, point: nat)
    | Letter(letter: char)
    | Four(digits: string, point: nat)
    | Pair(high: string, low: string, point: nat)

  predicate WellFormed(u: Unit) {
    match u
    case Shown(bytes, point) => Decode(bytes) == Some([point]) && point >= 0x20 && point != 0x22 && point != 0x5C
    case Letter(letter) => letter in "\"\\/bfnrt"
    case Four(digits, point) => Scalar(point) && point < 0x10000 && SpellsFour(digits, point)
    case Pair(high, low, point) =>
      && 0x10000 <= point < 0x110000
      && SpellsFour(high, 0xD800 + (point - 0x10000) / 0x400) && SpellsFour(low, 0xDC00 + (point - 0x10000) % 0x400)
  }

  function Written(u: Unit): string {
    match u
    case Shown(bytes, _) => bytes
    case Letter(letter) => "\\" + [letter]
    case Four(digits, _) => "\\u" + digits
    case Pair(high, low, _) => "\\u" + high + "\\u" + low
  }

  /** The code point that a unit stands for. */
  function Meant(u: Unit): nat {
    match u
    case Shown(_, point) => point
    case Letter(letter) =>
      (match letter
       case 'b' => 0x08
       case 't' => 0x09
       case 'n' => 0x0A
       case 'f' => 0x0C
       case 'r' => 0x0D
       case '/' => 0x2F
       case '\\' => 0x5C
       case _ => 0x22)
    case Four(_, point) => point
    case Pair(_, _, point) => point
  }

  predicate AllWellFormed(us: seq<Unit>) {
    forall i :: 0 <= i < |us| ==> WellFormed(us[i])
  }

  function WrittenAll(us: seq<Unit>): string {
    if us == [] then "" else Written(us[0]) + WrittenAll(us[1..])
  }

  function MeantAll(us: seq<Unit>): seq<nat> {
    if us == [] then [] else [Meant(us[0])] + MeantAll(us[1..])
  }

  // ----- what the library makes of a unit

  lemma SpelledValue(c: char, digit: nat)
    requires Spells(c, digit)
    ensures HexValue(c) == Some(digit) && DigitValue(c) == digit
  {
  }

  lemma Quarters(unit: nat)
    ensures unit / 0x100 == unit / 0x1000 * 16 + unit / 0x100 % 16
    ensures unit / 0x10 == unit / 0x100 * 16 + unit / 0x10 % 16
    ensures unit == unit / 0x10 * 16 + unit % 16
  {
  }

  lemma SpelledUnit(raw: string, i: nat, unit: nat)
    requires i + 4 <= |raw| && unit < 0x10000 && SpellsFour(raw[i..i + 4], unit)
    ensures CodeUnit(raw, i) == unit
  {
    hide HexValue, Spells, DigitValue;
    assert raw[i..i + 4] == [raw[i], raw[i + 1], raw[i + 2], raw[i + 3]];
    SpelledValue(raw[i], unit / 0x1000);
    SpelledValue(raw[i + 1], unit / 0x100 % 16);
    SpelledValue(raw[i + 2], unit / 0x10 % 16);
    SpelledValue(raw[i + 3], unit % 16);
    Quarters(unit);
  }

  /** The bytes that the library puts in the string for a unit. */
  function Bytes(u: Unit): string
    requires WellFormed(u)
  {
    if u.Shown? then u.bytes else Utf8Bytes(Meant(u))
  }

  lemma BytesDecode(u: Unit)
    requires WellFormed(u)
    ensures Decode(Bytes(u)) == Some([Meant(u)])
  {
    hide Decode, Utf8Bytes, SpellsFour;
    if !u.Shown? {
      EncoderDecodes(Meant(u));
    }
  }

  lemma OneSign(bytes: string, point: nat)
    requires Decode(bytes) == Some([point])
    ensures First(bytes) == Some(Sign(point, |bytes|))
  {
    hide First;
    var sign := First(bytes).value;
    assert Decode(bytes).value[1..] == Decode(bytes[sign.size..]).value;
    assert Decode(bytes).value[0] == sign.point;
    NothingCoded(bytes[sign.size..]);
  }

  /** No byte of a character that is not ASCII is a quote, a backslash or a control character. */
  lemma ShownBytes(bytes: string, point: nat)
    requires Decode(bytes) == Some([point])
    ensures First(bytes) == Some(Sign(point, |bytes|))
    ensures |bytes| == 1 ==> bytes[0] as int == point < 0x80
    ensures |bytes| > 1 ==> forall i :: 0 <= i < |bytes| ==> bytes[i] as int >= 0x80
  {
    hide Decode;
    OneSign(bytes, point);
  }

  lemma {:induction false} BytesStay(bytes: string, rest: string)
    requires forall i :: 0 <= i < |bytes| ==> bytes[i] != '\\'
    ensures Unescaped(bytes + rest) == bytes + Unescaped(rest)
    decreases |bytes|
  {
    hide Unescaped;
    if bytes == "" {
      assert bytes + rest == rest;
    } else {
      UnescapedOne(bytes[0], bytes[1..] + rest);
      assert bytes + rest == [bytes[0]] + (bytes[1..] + rest);
      BytesStay(bytes[1..], rest);
    }
  }

  lemma LetterMeans(letter: char)
    requires letter in "\"\\/bfnrt"
    ensures Utf8Bytes(Meant(Letter(letter))) == [Meaning(letter)]
  {
  }

  lemma FourUnescaped(digits: string, point: nat, rest: string)
    requires WellFormed(Four(digits, point))
    ensures Unescaped("\\u" + digits + rest) == Utf8Bytes(point) + Unescaped(rest)
  {
    hide SpellsFour, CodeUnit, Utf8Bytes;
    var raw := "\\u" + digits + rest;
    FourLong(digits, point);
    assert raw[2..6] == digits && raw[6..] == rest;
    SpelledUnit(raw, 2, point);
  }

  lemma FourLong(digits: string, unit: nat)
    requires SpellsFour(digits, unit)
    ensures |digits| == 4
  {
  }

  lemma PairUnescaped(high: string, low: string, point: nat, rest: string)
    requires WellFormed(Pair(high, low, point))
    ensures Unescaped("\\u" + high + "\\u" + low + rest) == Utf8Bytes(point) + Unescaped(rest)
  {
    hide SpellsFour, CodeUnit, Utf8Bytes;
    var raw := "\\u" + high + "\\u" + low + rest;
    var h, l := 0xD800 + (point - 0x10000) / 0x400, 0xDC00 + (point - 0x10000) % 0x400;
    FourLong(high, h);
    FourLong(low, l);
    assert raw[2..6] == high && raw[8..12] == low && raw[12..] == rest;
    SpelledUnit(raw, 2, h);
    SpelledUnit(raw, 8, l);
    assert l % 0x400 == (point - 0x10000) % 0x400;
  }

  lemma UnitUnescaped(u: Unit, rest: string)
    requires WellFormed(u)
    ensures Unescaped(Written(u) + rest) == Bytes(u) + Unescaped(rest)
  {
    hide Unescaped, Decode, SpellsFour, Utf8Bytes;
    match u
    case Shown(bytes, point) =>
      ShownBytes(bytes, point);
      BytesStay(bytes, rest);
    case Letter(letter) =>
      LetterMeans(letter);
      UnescapedTwo(letter, rest);
      assert Written(u) + rest == ['\\', letter] + rest;
    case Four(digits, point) =>
      FourUnescaped(digits, point, rest);
    case Pair(high, low, point) =>
      PairUnescaped(high, low, point, rest);
  }

  /** What is between the quotes of a JSON string stands for the code points of its units. */
  lemma {:induction false} StringMeans(us: seq<Unit>)
    requires AllWellFormed(us)
    ensures Decode(Unescaped(WrittenAll(us))) == Some(MeantAll(us))
  {
    hide Bytes, Decode, First, Unescaped, WellFormed, Written, Meant;
    if us == [] {
      NothingDecodes();
    } else {
      UnitUnescaped(us[0], WrittenAll(us[1..]));
      BytesDecode(us[0]);
      StringMeans(us[1..]);
      DecodeAppend(Bytes(us[0]), Unescaped(WrittenAll(us[1..])));
    }
  }

  lemma NothingDecodes()
    ensures Decode(Unescaped("")) == Some([])
  {
  }

  // ----- the machine reads units

  /** The machine inside a string. */
  function TextRun(p: TextPart, s: string): Option<TextPart>
    decreases |s|
  {
    if s == "" then Some(p)
    else if p.Plain? && s[0] == '"' then None
    else match TextStep(p, s[0])
      case None => None
      case Some(q) => TextRun(q, s[1..])
  }

  lemma {:induction false} TextRunAppend(p: TextPart, a: string, b: string)
    ensures TextRun(p, a + b) == if TextRun(p, a).None? then None else TextRun(TextRun(p, a).value, b)
    decreases |a|
  {
    hide TextStep;
    if a == "" {
      assert a + b == b;
    } else {
      assert (a + b)[0] == a[0] && (a + b)[1..] == a[1..] + b;
      if TextStep(p, a[0]).Some? {
        TextRunAppend(TextStep(p, a[0]).value, a[1..], b);
      }
    }
  }

  lemma {:induction false} TextRunReads(show: string -> string, r: Reader, s: string)
    requires r.st.mode.Text? && TextRun(r.st.mode.part, s).Some?
    ensures Read(show, r, s)
            == Some(Reader(State(Text(r.st.mode.key, TextRun(r.st.mode.part, s).value), r.st.stack),
                           r.b.(token := r.b.token + s)))
    decreases |s|
  {
    hide TextStep;
    if s == "" {
      assert r.b.token + s == r.b.token;
    } else {
      TextRunReads(show, Next(show, r, s[0]).value, s[1..]);
      assert r.b.token + [s[0]] + s[1..] == r.b.token + s;
    }
  }

  lemma TextRunCons(p: TextPart, c: char, rest: string, q: TextPart)
    requires TextStep(p, c) == Some(q) && !(p.Plain? && c == '"')
    ensures TextRun(p, [c] + rest) == TextRun(q, rest)
  {
    hide TextStep;
    assert ([c] + rest)[1..] == rest;
  }

  lemma HexRun(read: nat, code: nat, low: bool, c: char, digit: nat, rest: string)
    requires read < 3 && Spells(c, digit)
    ensures TextRun(Hex(read, code, low), [c] + rest) == TextRun(Hex(read + 1, code * 16 + digit, low), rest)
  {
    hide TextRun;
    SpelledValue(c, digit);
    TextRunCons(Hex(read, code, low), c, rest, Hex(read + 1, code * 16 + digit, low));
  }

  lemma FourRun(digits: string, a: nat, b: nat, c: nat, d: nat, low: bool, next: TextPart, rest: string)
    requires |digits| == 4 && Spells(digits[0], a) && Spells(digits[1], b) && Spells(digits[2], c) && Spells(digits[3], d)
    requires HexDone(((a * 16 + b) * 16 + c) * 16 + d, low) == Some(next)
    ensures TextRun(Hex(0, 0, low), digits + rest) == TextRun(next, rest)
  {
    hide TextRun, Spells, HexDone;
    var two, three := [digits[2]] + ([digits[3]] + rest), [digits[3]] + rest;
    assert digits + rest == [digits[0]] + ([digits[1]] + two);
    HexRun(0, 0, low, digits[0], a, [digits[1]] + two);
    HexRun(1, a, low, digits[1], b, two);
    HexRun(2, a * 16 + b, low, digits[2], c, three);
    SpelledValue(digits[3], d);
    TextRunCons(Hex(3, (a * 16 + b) * 16 + c, low), digits[3], rest, next);
  }

  lemma FourRuns(digits: string, unit: nat, low: bool, rest: string)
    requires unit < 0x10000 && SpellsFour(digits, unit) && HexDone(unit, low).Some?
    ensures TextRun(Hex(0, 0, low), digits + rest) == TextRun(HexDone(unit, low).value, rest)
  {
    hide TextRun, Spells, HexDone;
    var a, b, c, d := unit / 0x1000, unit / 0x100 % 16, unit / 0x10 % 16, unit % 16;
    Quarters(unit);
    FourRun(digits, a, b, c, d, low, HexDone(unit, low).value, rest);
  }

  lemma EscapeRun(c: char, rest: string)
    ensures TextRun(Plain, "\\u" + rest) == TextRun(Hex(0, 0, false), rest)
    ensures TextRun(PairSlash, "\\u" + rest) == TextRun(Hex(0, 0, true), rest)
    ensures c in "\"\\/bfnrt" ==> TextRun(Plain, "\\" + [c] + rest) == TextRun(Plain, rest)
  {
    hide TextRun;
    assert "\\u" + rest == ['\\'] + (['u'] + rest);
    assert "\\" + [c] + rest == ['\\'] + ([c] + rest);
    TextRunCons(Plain, '\\', ['u'] + rest, Backslash);
    TextRunCons(Backslash, 'u', rest, Hex(0, 0, false));
    TextRunCons(PairSlash, '\\', ['u'] + rest, PairLetter);
    TextRunCons(PairLetter, 'u', rest, Hex(0, 0, true));
    if c in "\"\\/bfnrt" {
      TextRunCons(Plain, '\\', [c] + rest, Backslash);
      TextRunCons(Backslash, c, rest, Plain);
    }
  }

  /** The bytes behind the lead of a longer sequence are those its lead calls for. */
  predicate Follows(bytes: string, rest: seq<(int, int)>) {
    |bytes| == |rest| && forall i :: 0 <= i < |rest| ==> rest[i].0 <= bytes[i] as int <= rest[i].1
  }

  /** The table of lead bytes and the decoder agree. */
  lemma LeadFollows(bytes: string)
    requires |bytes| > 1
    ensures First(bytes).Some? && First(bytes).value.size == |bytes|
            <==> var tail := Continuation(bytes[0] as int);
                 tail.Some? && Follows(bytes[1..], tail.value)
  {
    var tail := Continuation(bytes[0] as int);
    if tail.Some? {
      assert |bytes[1..]| == |bytes| - 1;
      if |bytes| == |tail.value| + 1 {
        assert bytes[1..][0] == bytes[1];
        assert |bytes| > 2 ==> bytes[1..][1] == bytes[2];
        assert |bytes| > 3 ==> bytes[1..][2] == bytes[3];
      }
    }
  }

  lemma {:induction false} FollowsRun(bytes: string, ranges: seq<(int, int)>, rest: string)
    requires ranges != [] && Follows(bytes, ranges)
    ensures TextRun(Utf8(ranges), bytes + rest) == TextRun(Plain, rest)
    decreases |ranges|
  {
    hide TextRun;
    assert bytes + rest == [bytes[0]] + (bytes[1..] + rest);
    var next := if |ranges| == 1 then Plain else Utf8(ranges[1..]);
    TextRunCons(Utf8(ranges), bytes[0], bytes[1..] + rest, next);
    if |ranges| == 1 {
      assert bytes[1..] + rest == rest;
    } else {
      FollowsRun(bytes[1..], ranges[1..], rest);
    }
  }

  lemma ShownRuns(bytes: string, point: nat, rest: string)
    requires WellFormed(Shown(bytes, point))
    ensures TextRun(Plain, bytes + rest) == TextRun(Plain, rest)
  {
    hide TextRun, Decode, First, Continuation;
    ShownBytes(bytes, point);
    assert bytes + rest == [bytes[0]] + (bytes[1..] + rest);
    if |bytes| == 1 {
      TextRunCons(Plain, bytes[0], bytes[1..] + rest, Plain);
      assert bytes[1..] + rest == rest;
    } else {
      LeadFollows(bytes);
      var ranges := Continuation(bytes[0] as int).value;
      TextRunCons(Plain, bytes[0], bytes[1..] + rest, Utf8(ranges));
      FollowsRun(bytes[1..], ranges, rest);
    }
  }

  lemma PairRuns(high: string, low: string, point: nat, rest: string)
    requires WellFormed(Pair(high, low, point))
    ensures TextRun(Plain, "\\u" + high + "\\u" + low + rest) == TextRun(Plain, rest)
  {
    hide TextRun, SpellsFour;
    var h, l := 0xD800 + (point - 0x10000) / 0x400, 0xDC00 + (point - 0x10000) % 0x400;
    assert "\\u" + high + "\\u" + low + rest == "\\u" + (high + ("\\u" + (low + rest)));
    EscapeRun(' ', high + ("\\u" + (low + rest)));
    FourRuns(high, h, false, "\\u" + (low + rest));
    EscapeRun(' ', low + rest);
    FourRuns(low, l, true, rest);
  }

  lemma UnitRuns(u: Unit, rest: string)
    requires WellFormed(u)
    ensures TextRun(Plain, Written(u) + rest) == TextRun(Plain, rest)
  {
    hide TextRun, Decode, SpellsFour;
    match u
    case Shown(bytes, point) =>
      ShownRuns(bytes, point, rest);
    case Letter(letter) =>
      EscapeRun(letter, rest);
    case Four(digits, point) =>
      assert "\\u" + digits + rest == "\\u" + (digits + rest);
      EscapeRun(' ', digits + rest);
      FourRuns(digits, point, false, rest);
    case Pair(high, low, point) =>
      PairRuns(high, low, point, rest);
  }

  lemma NothingRuns()
    ensures TextRun(Plain, "") == Some(Plain)
  {
  }

  lemma {:induction false} UnitsRun(us: seq<Unit>)
    requires AllWellFormed(us)
    ensures TextRun(Plain, WrittenAll(us)) == Some(Plain)
  {
    hide TextRun, WellFormed, Written;
    if us == [] {
      NothingRuns();
    } else {
      UnitRuns(us[0], WrittenAll(us[1..]));
      UnitsRun(us[1..]);
    }
  }

  // ----- and nothing else

  function Together(a: nat, b: nat, c: nat, d: nat): nat {
    ((a * 16 + b) * 16 + c) * 16 + d
  }

  lemma Apart(a: nat, b: nat, c: nat, d: nat)
    requires a < 16 && b < 16 && c < 16 && d < 16
    ensures var unit := Together(a, b, c, d);
            unit < 0x10000 && unit / 0x1000 == a && unit / 0x100 % 16 == b && unit / 0x10 % 16 == c && unit % 16 == d
  {
    var unit := Together(a, b, c, d);
    assert unit / 0x10 == (a * 16 + b) * 16 + c;
    assert unit / 0x100 == a * 16 + b;
  }

  lemma FourSpelled(s: string, a: nat, b: nat, c: nat, d: nat)
    requires |s| >= 4 && Spells(s[0], a) && Spells(s[1], b) && Spells(s[2], c) && Spells(s[3], d)
    ensures Together(a, b, c, d) < 0x10000 && SpellsFour(s[..4], Together(a, b, c, d))
  {
    hide Together;
    Apart(a, b, c, d);
    assert s[..4] == [s[0], s[1], s[2], s[3]];
  }

  /** Four hexadecimal digits and what the machine reads behind them. */
  lemma HexFour(s: string, low: bool) returns (unit: nat)
    requires TextRun(Hex(0, 0, low), s) == Some(Plain)
    ensures |s| >= 4 && unit < 0x10000 && SpellsFour(s[..4], unit)
    ensures HexDone(unit, low).Some? && TextRun(HexDone(unit, low).value, s[4..]) == Some(Plain)
  {
    hide TextRun, Spells, SpellsFour, HexDone;
    var a := HexNext(Hex(0, 0, low), s);
    var b := HexNext(Hex(1, a, low), s[1..]);
    assert s[1..][1..] == s[2..];
    var c := HexNext(Hex(2, a * 16 + b, low), s[2..]);
    assert s[2..][1..] == s[3..];
    var d := HexNext(Hex(3, (a * 16 + b) * 16 + c, low), s[3..]);
    assert s[3..][1..] == s[4..];
    FourSpelled(s, a, b, c, d);
    unit := Together(a, b, c, d);
  }

  lemma HexNext(p: TextPart, s: string) returns (digit: nat)
    requires p.Hex? && TextRun(p, s) == Some(Plain)
    ensures s != "" && Spells(s[0], digit)
    ensures var q := if p.read < 3 then Some(Hex(p.read + 1, p.code * 16 + digit, p.low)) else HexDone(p.code * 16 + digit, p.low);
            q.Some? && TextRun(q.value, s[1..]) == Some(Plain)
  {
    digit := HexValue(s[0]).value;
    ValueSpelled(s[0]);
  }

  lemma ValueSpelled(c: char)
    requires HexValue(c).Some?
    ensures Spells(c, HexValue(c).value)
  {
  }

  lemma {:induction false} FollowsBack(ranges: seq<(int, int)>, s: string)
    requires ranges != [] && TextRun(Utf8(ranges), s) == Some(Plain)
    ensures |s| >= |ranges| && Follows(s[..|ranges|], ranges) && TextRun(Plain, s[|ranges|..]) == Some(Plain)
    decreases |ranges|
  {
    if |ranges| == 1 {
      assert s[..1] == [s[0]];
    } else {
      FollowsBack(ranges[1..], s[1..]);
      assert s[1..][|ranges| - 1..] == s[|ranges|..];
      assert s[..|ranges|] == [s[0]] + s[1..][..|ranges| - 1];
    }
  }

  lemma OneShown(c: char)
    requires 0x20 <= c as int < 0x80 && c != '"' && c != '\\'
    ensures WellFormed(Shown([c], c as nat))
  {
    DecodeOne([c]);
  }

  lemma LongPoint(bytes: string)
    requires |bytes| > 1 && First(bytes).Some? && First(bytes).value.size == |bytes|
    ensures First(bytes).value.point >= 0x80
  {
  }

  lemma ManyShown(s: string) returns (u: Unit)
    requires s != "" && s[0] as int >= 0x80 && TextRun(Plain, s) == Some(Plain)
    ensures WellFormed(u) && Written(u) <= s && Written(u) != "" && TextRun(Plain, s[|Written(u)|..]) == Some(Plain)
  {
    hide First, Decode;
    var ranges := Continuation(s[0] as int).value;
    var n := |ranges| + 1;
    FollowsBack(ranges, s[1..]);
    assert s[1..][..|ranges|] == s[..n][1..] && s[1..][|ranges|..] == s[n..];
    LeadFollows(s[..n]);
    DecodeOne(s[..n]);
    LongPoint(s[..n]);
    u := Shown(s[..n], First(s[..n]).value.point);
  }

  lemma SlashNext(p: TextPart, s: string)
    requires (p.Plain? || p.PairSlash?) && TextRun(p, s) == Some(Plain) && s != "" && s[0] == '\\'
    ensures |s| >= 2 && (s[1] == 'u' || (p.Plain? && s[1] in "\"\\/bfnrt"))
    ensures s[1] == 'u' ==> TextRun(Hex(0, 0, p.PairSlash?), s[2..]) == Some(Plain)
    ensures s[1] != 'u' ==> TextRun(Plain, s[2..]) == Some(Plain)
  {
    assert s[1..][1..] == s[2..];
  }

  lemma SlashFirst(s: string)
    requires TextRun(PairSlash, s) == Some(Plain)
    ensures s != "" && s[0] == '\\'
  {
  }

  lemma PairPoint(h: nat, l: nat) returns (point: nat)
    requires 0xD800 <= h < 0xDC00 && 0xDC00 <= l < 0xE000
    ensures 0x10000 <= point < 0x110000
    ensures 0xD800 + (point - 0x10000) / 0x400 == h && 0xDC00 + (point - 0x10000) % 0x400 == l
  {
    point := 0x10000 + (h - 0xD800) * 0x400 + (l - 0xDC00);
  }

  lemma HexUnit(s: string) returns (u: Unit)
    requires |s| >= 2 && s[..2] == "\\u" && TextRun(Hex(0, 0, false), s[2..]) == Some(Plain)
    ensures WellFormed(u) && Written(u) <= s && Written(u) != "" && TextRun(Plain, s[|Written(u)|..]) == Some(Plain)
  {
    hide TextRun, SpellsFour;
    var h := HexFour(s[2..], false);
    assert s[2..][..4] == s[2..6] && s[2..][4..] == s[6..];
    if HexDone(h, false).value.PairSlash? {
      SlashFirst(s[6..]);
      SlashNext(PairSlash, s[6..]);
      assert s[6..][2..] == s[8..];
      var l := HexFour(s[8..], true);
      assert s[8..][..4] == s[8..12] && s[8..][4..] == s[12..];
      var point := PairPoint(h, l);
      u := Pair(s[2..6], s[8..12], point);
      assert Written(u) == s[..12];
    } else {
      u := Four(s[2..6], h);
      assert Written(u) == s[..6];
    }
  }

  lemma FirstUnit(s: string) returns (u: Unit)
    requires s != "" && TextRun(Plain, s) == Some(Plain)
    ensures WellFormed(u) && Written(u) <= s && Written(u) != "" && TextRun(Plain, s[|Written(u)|..]) == Some(Plain)
  {
    hide Decode, SpellsFour, Continuation;
    if s[0] == '\\' {
      SlashNext(Plain, s);
      if s[1] == 'u' {
        u := HexUnit(s);
      } else {
        u := Letter(s[1]);
        assert Written(u) == s[..2];
      }
    } else if s[0] as int < 0x80 {
      OneShown(s[0]);
      u := Shown([s[0]], s[0] as nat);
    } else {
      u := ManyShown(s);
    }
  }

  /** What the machine reads inside a string is written from units. */
  lemma {:induction false} UnitsOf(s: string) returns (us: seq<Unit>)
    requires TextRun(Plain, s) == Some(Plain)
    ensures AllWellFormed(us) && WrittenAll(us) == s
    decreases |s|
  {
    hide TextRun, WellFormed, Written;
    if s == "" {
      us := [];
    } else {
      var u := FirstUnit(s);
      var more := UnitsOf(s[|Written(u)|..]);
      us := [u] + more;
      assert us[1..] == more;
    }
  }
}

/**
 Base64 (RFC 4648, sections 4 and 5) as common/base64.hpp writes and reads it: a bit accumulator,
 an alphabet that may be detected on the way, and decoding in place. Shifts and disjoint ors of
 bytes are written as multiplications, divisions and sums.
 */
module Base64 {
  import opened Base

  type Sextet = x: int | 0 <= x < 64

  datatype Alphabet = Detect | Standard | UrlFilenameSafe
  datatype Behavior = Moderate | Loose

  /** The bytes of a std::string. */
  predicate IsByteString(s: string) {
    forall i :: 0 <= i < |s| ==> s[i] as int < 256
  }

  /** static_cast<std::uint8_t> */
  function ByteOf(c: char): (b: int)
    ensures 0 <= b < 256
  {
    c as int % 256
  }

  /** The alphabets of sections 4 and 5: A to Z, a to z, 0 to 9, and two more. */
  function Letter(alphabet: Alphabet, v: Sextet): char {
    if v < 26 then ('A' as int + v) as char
    else if v < 52 then ('a' as int + v - 26) as char
    else if v < 62 then ('0' as int + v - 52) as char
    else if v == 62 then (if alphabet.UrlFilenameSafe? then '-' else '+')
    else if alphabet.UrlFilenameSafe? then '_' else '/'
  }

  const UPPER_CASE := "ABCDEFGHIJKLMNOPQRSTUVWXYZ"
  const LOWER_CASE := "abcdefghijklmnopqrstuvwxyz"
  const DIGITS := "0123456789"
  const STANDARD_LETTERS := UPPER_CASE + LOWER_CASE + DIGITS + "+/"
  const URL_LETTERS := UPPER_CASE + LOWER_CASE + DIGITS + "-_"

  /** The letters of the two alphabets; without a choice, those of the first. */
  lemma LettersAre(v: Sextet)
    ensures |STANDARD_LETTERS| == |URL_LETTERS| == 64
    ensures Letter(Standard, v) == Letter(Detect, v) == STANDARD_LETTERS[v]
    ensures Letter(UrlFilenameSafe, v) == URL_LETTERS[v]
  {
    assert |UPPER_CASE| == |LOWER_CASE| == 26 && |DIGITS| == 10;
    if v < 26 {
      assert STANDARD_LETTERS[v] == URL_LETTERS[v] == UPPER_CASE[v];
    } else if v < 52 {
      assert STANDARD_LETTERS[v] == URL_LETTERS[v] == LOWER_CASE[v - 26];
    } else if v < 62 {
      assert STANDARD_LETTERS[v] == URL_LETTERS[v] == DIGITS[v - 52];
    }
  }

  // ----- encoding

  /** The high six bits of a byte, then the bits that two neighbours share, then the low six. */
  function Sextet0(i0: int): Sextet
    requires 0 <= i0 < 256
  {
    i0 / 4
  }

  function Sextet1(i0: int, i1: int): Sextet
    requires 0 <= i0 < 256 && 0 <= i1 < 256
  {
    i0 % 4 * 16 + i1 / 16
  }

  function Sextet2(i1: int, i2: int): Sextet
    requires 0 <= i1 < 256 && 0 <= i2 < 256
  {
    i1 % 16 * 4 + i2 / 64
  }

  function Sextet3(i2: int): Sextet
    requires 0 <= i2 < 256
  {
    i2 % 64
  }

  /** One to three bytes as two to four groups of six bits. */
  function Sextets(group: string): (r: seq<Sextet>)
    requires 1 <= |group| <= 3
    ensures |r| == |group| + 1
  {
    var i0 := ByteOf(group[0]);
    if |group| == 1 then [Sextet0(i0), Sextet1(i0, 0)]
    else
      var i1 := ByteOf(group[1]);
      if |group| == 2 then [Sextet0(i0), Sextet1(i0, i1), Sextet2(i1, 0)]
      else
        var i2 := ByteOf(group[2]);
        [Sextet0(i0), Sextet1(i0, i1), Sextet2(i1, i2), Sextet3(i2)]
  }

  /** The number with the given digits, most significant first. */
  function Positional(base: int, digits: seq<int>): int {
    if digits == [] then 0 else Positional(base, digits[..|digits| - 1]) * base + digits[|digits| - 1]
  }

  lemma PositionalSnoc(base: int, digits: seq<int>, d: int)
    ensures Positional(base, digits + [d]) == Positional(base, digits) * base + d
  {
    assert (digits + [d])[..|digits|] == digits;
  }

  /** The four sextets of three bytes are the digits in base 64 of their 24 bits. */
  lemma SextetsAreRadix64(group: string)
    requires |group| == 3 && IsByteString(group)
    ensures Positional(64, Sextets(group)) == Positional(256, [group[0] as int, group[1] as int, group[2] as int])
  {
    var i0, i1, i2 := ByteOf(group[0]), ByteOf(group[1]), ByteOf(group[2]);
    PositionalThree(i0, i1, i2);
    PositionalFour(Sextet0(i0), Sextet1(i0, i1), Sextet2(i1, i2), Sextet3(i2));
    ByteIsChar(group, 0);
    ByteIsChar(group, 1);
    ByteIsChar(group, 2);
    SameBits(i0, i1, i2);
  }

  lemma SameBits(i0: int, i1: int, i2: int)
    requires 0 <= i0 < 256 && 0 <= i1 < 256 && 0 <= i2 < 256
    ensures ((Sextet0(i0) * 64 + Sextet1(i0, i1)) * 64 + Sextet2(i1, i2)) * 64 + Sextet3(i2) == (i0 * 256 + i1) * 256 + i2
  {
    SameNumber(i0 / 4, i0 % 4, i1 / 16, i1 % 16, i2 / 64, i2 % 64);
  }

  lemma SameNumber(a: int, b: int, c: int, d: int, e: int, f: int)
    ensures ((a * 64 + (b * 16 + c)) * 64 + (d * 4 + e)) * 64 + f
            == ((a * 4 + b) * 256 + (c * 16 + d)) * 256 + (e * 64 + f)
  {
  }

  lemma PositionalThree(a: int, b: int, c: int)
    ensures Positional(256, [a, b, c]) == (a * 256 + b) * 256 + c
  {
    assert [a, b, c] == [] + [a] + [b] + [c];
    PositionalSnoc(256, [], a);
    PositionalSnoc(256, [] + [a], b);
    PositionalSnoc(256, [] + [a] + [b], c);
  }

  lemma PositionalFour(a: int, b: int, c: int, d: int)
    ensures Positional(64, [a, b, c, d]) == ((a * 64 + b) * 64 + c) * 64 + d
  {
    assert [a, b, c, d] == [] + [a] + [b] + [c] + [d];
    PositionalSnoc(64, [], a);
    PositionalSnoc(64, [] + [a], b);
    PositionalSnoc(64, [] + [a] + [b], c);
    PositionalSnoc(64, [] + [a] + [b] + [c], d);
  }

  function EncodeGroup(alphabet: Alphabet, group: string): (r: string)
    requires 1 <= |group| <= 3
    ensures |r| == 4
  {
    var s := Sextets(group);
    var first, second := Letter(alphabet, s[0]), Letter(alphabet, s[1]);
    if |group| == 1 then [first, second, '=', '=']
    else if |group| == 2 then [first, second, Letter(alphabet, s[2]), '=']
    else [first, second, Letter(alphabet, s[2]), Letter(alphabet, s[3])]
  }

  function Encoded(alphabet: Alphabet, s: string): string {
    if s == "" then ""
    else if |s| <= 3 then EncodeGroup(alphabet, s)
    else EncodeGroup(alphabet, s[..3]) + Encoded(alphabet, s[3..])
  }

  /** The characters that the encoder writes for what starts at `from`. */
  lemma EncodedTail(alphabet: Alphabet, str: string, from: nat)
    requires from < |str|
    ensures var i0 := ByteOf(str[from]);
            var first := Letter(alphabet, Sextet0(i0));
            if |str| - from == 1 then
              Encoded(alphabet, str[from..]) == [first, Letter(alphabet, Sextet1(i0, 0)), '=', '=']
            else
              var i1 := ByteOf(str[from + 1]);
              var second := Letter(alphabet, Sextet1(i0, i1));
              if |str| - from == 2 then
                Encoded(alphabet, str[from..]) == [first, second, Letter(alphabet, Sextet2(i1, 0)), '=']
              else
                var i2 := ByteOf(str[from + 2]);
                Encoded(alphabet, str[from..])
                == [first, second, Letter(alphabet, Sextet2(i1, i2)), Letter(alphabet, Sextet3(i2))]
                   + Encoded(alphabet, str[from + 3..])
  {
    if from + 3 <= |str| {
      EncodedUnfold(alphabet, str[from..]);
      assert str[from..][..3] == str[from..from + 3] && str[from..][3..] == str[from + 3..];
    }
  }

  lemma Regroup(a: string, b: string, c: string)
    ensures a + (b + c) == a + b + c
  {
  }

  method Encode(str: string, alphabet: Alphabet) returns (out: string)
    ensures out == Encoded(alphabet, str)
  {
    out := "";
    var i := 0;
    assert str[0..] == str;
    while i < |str|
      invariant 0 <= i <= |str|
      invariant Encoded(alphabet, str) == out + Encoded(alphabet, str[i..])
    {
      EncodedTail(alphabet, str, i);
      var i0 := ByteOf(str[i]);
      i := i + 1;
      var first := Letter(alphabet, Sextet0(i0));
      if i == |str| {
        // the last two characters are padding
        out := out + [first, Letter(alphabet, Sextet1(i0, 0)), '=', '='];
        return;
      }
      var i1 := ByteOf(str[i]);
      i := i + 1;
      var second := Letter(alphabet, Sextet1(i0, i1));
      if i == |str| {
        out := out + [first, second, Letter(alphabet, Sextet2(i1, 0)), '='];
        return;
      }
      var i2 := ByteOf(str[i]);
      i := i + 1;
      var group := [first, second, Letter(alphabet, Sextet2(i1, i2)), Letter(alphabet, Sextet3(i2))];
      Regroup(out, group, Encoded(alphabet, str[i..]));
      out := out + group;
    }
    assert str[|str|..] == "";
  }

  lemma EncodedUnfold(alphabet: Alphabet, s: string)
    requires |s| >= 3
    ensures Encoded(alphabet, s) == EncodeGroup(alphabet, s[..3]) + Encoded(alphabet, s[3..])
  {
    if |s| == 3 {
      assert s[..3] == s && s[3..] == "";
    }
  }

  function RequiredEncodeSize(size: nat): nat {
    (size / 3 + (if size % 3 != 0 then 1 else 0)) * 4
  }

  lemma {:induction false} EncodedSize(alphabet: Alphabet, s: string)
    ensures |Encoded(alphabet, s)| == RequiredEncodeSize(|s|)
  {
    if |s| > 3 {
      EncodedSize(alphabet, s[3..]);
      assert (|s| - 3) / 3 == |s| / 3 - 1 && (|s| - 3) % 3 == |s| % 3;
    }
  }

  // ----- decoding

  /** The value of a character, and the alphabet that is known after it; None is an error. */
  function SextetOf(alphabet: Alphabet, c: char): Option<(Alphabet, Sextet)> {
    if 'A' <= c <= 'Z' then Some((alphabet, (c as int - 'A' as int)))
    else if 'a' <= c <= 'z' then Some((alphabet, (c as int - 'a' as int + 26)))
    else if '0' <= c <= '9' then Some((alphabet, (c as int - '0' as int + 52)))
    else if c == '+' && !alphabet.UrlFilenameSafe? then Some((Standard, 62))
    else if c == '/' && !alphabet.UrlFilenameSafe? then Some((Standard, 63))
    else if c == '-' && !alphabet.Standard? then Some((UrlFilenameSafe, 62))
    else if c == '_' && !alphabet.Standard? then Some((UrlFilenameSafe, 63))
    else None
  }

  /** The alphabet as known, the last sextet and how many of its low bits are not yet written. */
  datatype Accumulator = Accumulator(alphabet: Alphabet, last: Sextet, bits: nat)

  predicate Ready(acc: Accumulator) {
    acc.bits in [0, 2, 4, 6]
  }

  /** The unwritten bits of `last` followed by the high bits of `part`, as one byte. */
  function Joined(last: Sextet, part: Sextet, bits: nat): (c: char)
    requires bits in [2, 4, 6]
  {
    (if bits == 6 then last * 4 % 256 + part / 16
     else if bits == 4 then last * 16 % 256 + part / 4
     else last * 64 % 256 + part) as char
  }

  function DecodeStep(acc: Accumulator, c: char): (r: Option<(Accumulator, string)>)
    requires Ready(acc)
    ensures r.Some? ==> Ready(r.value.0) && 8 * |r.value.1| + r.value.0.bits == acc.bits + 6
  {
    match SextetOf(acc.alphabet, c)
    case None => None
    case Some((alphabet, part)) =>
      if acc.bits + 6 >= 8 then
        Some((Accumulator(alphabet, part, acc.bits - 2), [Joined(acc.last, part, acc.bits)]))
      else Some((Accumulator(alphabet, part, acc.bits + 6), ""))
  }

  function Prepend(out: string, rest: Option<string>): Option<string> {
    if rest.None? then None else Some(out + rest.value)
  }

  lemma PrependTwice(a: string, b: string, rest: Option<string>)
    ensures Prepend(a, Prepend(b, rest)) == Prepend(a + b, rest)
    ensures Prepend("", rest) == rest
  {
    if rest.Some? {
      assert a + (b + rest.value) == a + b + rest.value;
      assert "" + rest.value == rest.value;
    }
  }

  predicate OnlyPadding(s: string) {
    forall i :: 0 <= i < |s| ==> s[i] == '='
  }

  /** None stands for a thrown base64_error. */
  function DecodeFrom(acc: Accumulator, s: string, behavior: Behavior): (r: Option<string>)
    requires Ready(acc)
    decreases |s|
  {
    if s == "" then Some("")
    else if s[0] == '=' then (if behavior.Loose? || OnlyPadding(s[1..]) then Some("") else None)
    else match DecodeStep(acc, s[0])
      case None => None
      case Some((next, out)) => Prepend(out, DecodeFrom(next, s[1..], behavior))
  }

  function Decoded(s: string, alphabet: Alphabet, behavior: Behavior): Option<string> {
    DecodeFrom(Accumulator(alphabet, 0, 0), s, behavior)
  }

  /** What is left to do after a step of the decoder. */
  lemma DecodeContinues(acc: Accumulator, s: string, out: string, behavior: Behavior)
    requires Ready(acc) && s != "" && s[0] != '=' && DecodeStep(acc, s[0]).Some?
    ensures var (next, more) := DecodeStep(acc, s[0]).value;
            Prepend(out, DecodeFrom(acc, s, behavior)) == Prepend(out + more, DecodeFrom(next, s[1..], behavior))
  {
    var (next, more) := DecodeStep(acc, s[0]).value;
    PrependTwice(out, more, DecodeFrom(next, s[1..], behavior));
  }

  lemma DecodeBegins(s: string, alphabet: Alphabet, behavior: Behavior)
    ensures Decoded(s, alphabet, behavior) == Prepend("", DecodeFrom(Accumulator(alphabet, 0, 0), s[0..], behavior))
  {
    assert s[0..] == s;
    PrependTwice("", "", Decoded(s, alphabet, behavior));
  }

  /** Where the decoder stops: at a character it cannot take, at the padding or at the end. */
  lemma DecodeEnds(acc: Accumulator, s: string, out: string, behavior: Behavior)
    requires Ready(acc) && (s != "" && s[0] != '=' ==> DecodeStep(acc, s[0]).None?)
    ensures Prepend(out, DecodeFrom(acc, s, behavior))
            == if s == "" || (s[0] == '=' && (behavior.Loose? || OnlyPadding(s[1..]))) then Some(out) else None
  {
    assert out + "" == out;
  }

  /** The rest of the input, after a padding character. */
  method CheckPadding(str: string, from: nat, behavior: Behavior) returns (ok: bool)
    requires from <= |str|
    ensures ok <==> behavior.Loose? || OnlyPadding(str[from..])
  {
    if !behavior.Loose? {
      var r := from;
      while r < |str|
        invariant from <= r <= |str|
        invariant forall k :: from <= k < r ==> str[k] == '='
      {
        if str[r] != '=' {
          assert str[from..][r - from] != '=';
          return false;
        }
        r := r + 1;
      }
    }
    ok := true;
  }

  /** Decodes into a string of its own. */
  method Decode(str: string, alphabet: Alphabet, behavior: Behavior) returns (out: Option<string>)
    ensures out == Decoded(str, alphabet, behavior)
  {
    var result := "";
    var acc := Accumulator(alphabet, 0, 0);
    var r := 0;
    PrependTwice("", "", Decoded(str, alphabet, behavior));
    assert str[0..] == str;
    while r < |str| && str[r] != '='
      invariant 0 <= r <= |str| && Ready(acc)
      invariant Decoded(str, alphabet, behavior) == Prepend(result, DecodeFrom(acc, str[r..], behavior))
    {
      var step := DecodeStep(acc, str[r]);
      if step.None? {
        return None;
      }
      DecodeContinues(acc, str[r..], result, behavior);
      assert str[r..][1..] == str[r + 1..];
      acc, result := step.value.0, result + step.value.1;
      r := r + 1;
    }
    assert result + "" == result;
    if r < |str| {
      r := r + 1;
      assert str[r - 1..][1..] == str[r..];
      var ok := CheckPadding(str, r, behavior);
      if !ok {
        return None;
      }
    }
    out := Some(result);
  }

  /** Decodes a buffer into itself; the result is the number of bytes written. */
  method DecodeInPlace(str: array<char>, alphabet: Alphabet, behavior: Behavior) returns (written: Option<nat>)
    modifies str
    ensures written.Some? ==> written.value <= str.Length
    ensures (if written.Some? then Some(str[..written.value]) else None) == Decoded(old(str[..]), alphabet, behavior)
  {
    hide Decoded, DecodeFrom, DecodeStep, OnlyPadding, Prepend;
    ghost var text := str[..];
    ghost var out := "";
    var acc := Accumulator(alphabet, 0, 0);
    var r, w := 0, 0;
    DecodeBegins(text, alphabet, behavior);
    while r < str.Length && str[r] != '='
      invariant 0 <= w <= r <= str.Length && Ready(acc)
      invariant 8 * w + acc.bits == 6 * r
      invariant forall k :: r <= k < str.Length ==> str[k] == text[k]
      invariant str[..w] == out
      invariant Decoded(text, alphabet, behavior) == Prepend(out, DecodeFrom(acc, text[r..], behavior))
    {
      var step := DecodeStep(acc, str[r]);
      if step.None? {
        DecodeEnds(acc, text[r..], out, behavior);
        return None;
      }
      DecodeContinues(acc, text[r..], out, behavior);
      assert text[r..][1..] == text[r + 1..];
      r := r + 1;
      if step.value.1 != "" {
        // enough bits for one byte; it goes where input has already been read
        str[w] := step.value.1[0];
        w := w + 1;
        assert str[..w] == str[..w - 1] + [step.value.1[0]] == out + step.value.1;
      } else {
        assert out + step.value.1 == out;
      }
      acc, out := step.value.0, out + step.value.1;
    }
    DecodeEnds(acc, text[r..], out, behavior);
    if r < str.Length {
      r := r + 1;
      assert text[r - 1..][1..] == text[r..];
      assert str[r..] == text[r..];
      var ok := CheckPadding(str[r..], 0, behavior);
      assert str[r..][0..] == text[r..];
      if !ok {
        return None;
      }
    }
    written := Some(w);
  }

  function MaxDecodeSize(size: nat): nat {
    (size / 4 + (if size % 4 != 0 then 1 else 0)) * 3
  }

  lemma {:induction false} DecodedBits(acc: Accumulator, s: string, behavior: Behavior)
    requires Ready(acc)
    ensures var r := DecodeFrom(acc, s, behavior); r.Some? ==> 8 * |r.value| <= acc.bits + 6 * |s|
    decreases |s|
  {
    if s != "" && s[0] != '=' && DecodeStep(acc, s[0]).Some? {
      DecodedBits(DecodeStep(acc, s[0]).value.0, s[1..], behavior);
    }
  }

  /** The bound is the least multiple of three that is not below three quarters of the text. */
  lemma DecodedSize(s: string, alphabet: Alphabet, behavior: Behavior)
    ensures var r := Decoded(s, alphabet, behavior); r.Some? ==> |r.value| <= MaxDecodeSize(|s|)
    ensures MaxDecodeSize(|s|) % 3 == 0 && 3 * |s| <= 4 * MaxDecodeSize(|s|) < 3 * |s| + 12
  {
    DecodedBits(Accumulator(alphabet, 0, 0), s, behavior);
  }

  // ----- decoding inverts encoding

  /** The alphabet a decoder may know while it reads text of the given alphabet. */
  predicate Suits(known: Alphabet, alphabet: Alphabet) {
    known.Detect? || (known.UrlFilenameSafe? <==> alphabet.UrlFilenameSafe?)
  }

  lemma LetterRoundTrip(known: Alphabet, alphabet: Alphabet, v: Sextet)
    requires Suits(known, alphabet)
    ensures Letter(alphabet, v) != '='
    ensures var r := SextetOf(known, Letter(alphabet, v)); r.Some? && r.value.1 == v && Suits(r.value.0, alphabet)
  {
  }

  /** Reading one letter of a sextet. */
  lemma ReadLetter(acc: Accumulator, alphabet: Alphabet, v: Sextet, rest: string, behavior: Behavior)
    returns (next: Accumulator)
    requires Ready(acc) && Suits(acc.alphabet, alphabet)
    ensures Ready(next) && Suits(next.alphabet, alphabet) && next.last == v
    ensures acc.bits == 0 ==> next.bits == 6
    ensures acc.bits != 0 ==> next.bits == acc.bits - 2
    ensures DecodeFrom(acc, [Letter(alphabet, v)] + rest, behavior)
            == Prepend(if acc.bits == 0 then "" else [Joined(acc.last, v, acc.bits)], DecodeFrom(next, rest, behavior))
  {
    LetterRoundTrip(acc.alphabet, alphabet, v);
    var text := [Letter(alphabet, v)] + rest;
    assert text[0] == Letter(alphabet, v) && text[1..] == rest;
    next := DecodeStep(acc, text[0]).value.0;
  }

  lemma PadEnds(acc: Accumulator, pad: string, behavior: Behavior)
    requires Ready(acc) && pad in ["=", "=="]
    ensures DecodeFrom(acc, pad, behavior) == Some("")
  {
  }

  lemma HighBitsDrop(y: int, z: int)
    requires 0 <= z < 256
    ensures (y * 256 + z) % 256 == z
  {
  }

  lemma JoinFirst(i0: int, i1: int)
    requires 0 <= i0 < 256 && 0 <= i1 < 256
    ensures Joined(Sextet0(i0), Sextet1(i0, i1), 6) == i0 as char
  {
    var b, c := i0 % 4, i1 / 16;
    assert (b * 16 + c) / 16 == b;
  }

  lemma JoinMiddle(b: int, c: int, d: int, e: int)
    requires 0 <= b < 4 && 0 <= c < 16 && 0 <= d < 16 && 0 <= e < 4
    ensures (b * 16 + c) * 16 % 256 == c * 16 && (d * 4 + e) / 4 == d
  {
    HighBitsDrop(b, c * 16);
  }

  lemma JoinSecond(i0: int, i1: int, i2: int)
    requires 0 <= i0 < 256 && 0 <= i1 < 256 && 0 <= i2 < 256
    ensures Joined(Sextet1(i0, i1), Sextet2(i1, i2), 4) == i1 as char
  {
    JoinMiddle(i0 % 4, i1 / 16, i1 % 16, i2 / 64);
    assert i1 == i1 / 16 * 16 + i1 % 16;
  }

  lemma JoinThird(i1: int, i2: int)
    requires 0 <= i1 < 256 && 0 <= i2 < 256
    ensures Joined(Sextet2(i1, i2), Sextet3(i2), 2) == i2 as char
  {
    var d, e := i1 % 16, i2 / 64;
    assert (d * 4 + e) * 64 == d * 256 + e * 64;
    HighBitsDrop(d, e * 64);
  }

  lemma ByteIsChar(s: string, i: nat)
    requires IsByteString(s) && i < |s|
    ensures ByteOf(s[i]) as char == s[i]
  {
  }

  lemma FirstByte(acc: Accumulator, alphabet: Alphabet, s0: Sextet, s1: Sextet, rest: string, behavior: Behavior)
    returns (next: Accumulator)
    requires Ready(acc) && acc.bits == 0 && Suits(acc.alphabet, alphabet)
    ensures Suits(next.alphabet, alphabet) && next.last == s1 && next.bits == 4
    ensures DecodeFrom(acc, [Letter(alphabet, s0), Letter(alphabet, s1)] + rest, behavior)
            == Prepend([Joined(s0, s1, 6)], DecodeFrom(next, rest, behavior))
  {
    var text := [Letter(alphabet, s1)] + rest;
    assert [Letter(alphabet, s0), Letter(alphabet, s1)] + rest == [Letter(alphabet, s0)] + text;
    var a1 := ReadLetter(acc, alphabet, s0, text, behavior);
    next := ReadLetter(a1, alphabet, s1, rest, behavior);
    PrependTwice("", "", DecodeFrom(a1, text, behavior));
  }

  lemma ThreeBytes(acc: Accumulator, alphabet: Alphabet, group: string, rest: string, behavior: Behavior)
    returns (next: Accumulator)
    requires Ready(acc) && acc.bits == 0 && Suits(acc.alphabet, alphabet)
    requires |group| == 3 && IsByteString(group)
    ensures Ready(next) && next.bits == 0 && Suits(next.alphabet, alphabet)
    ensures DecodeFrom(acc, EncodeGroup(alphabet, group) + rest, behavior)
            == Prepend(group, DecodeFrom(next, rest, behavior))
  {
    var s := Sextets(group);
    var t3 := [Letter(alphabet, s[3])] + rest;
    var t2 := [Letter(alphabet, s[2])] + t3;
    assert EncodeGroup(alphabet, group) + rest == [Letter(alphabet, s[0]), Letter(alphabet, s[1])] + t2;
    var a2 := FirstByte(acc, alphabet, s[0], s[1], t2, behavior);
    var a3 := ReadLetter(a2, alphabet, s[2], t3, behavior);
    next := ReadLetter(a3, alphabet, s[3], rest, behavior);
    var i0, i1, i2 := ByteOf(group[0]), ByteOf(group[1]), ByteOf(group[2]);
    JoinFirst(i0, i1);
    JoinSecond(i0, i1, i2);
    JoinThird(i1, i2);
    ByteIsChar(group, 0);
    ByteIsChar(group, 1);
    ByteIsChar(group, 2);
    PrependTwice([group[1]], [group[2]], DecodeFrom(next, rest, behavior));
    PrependTwice([group[0]], [group[1]] + [group[2]], DecodeFrom(next, rest, behavior));
    assert group == [group[0]] + ([group[1]] + [group[2]]);
  }

  lemma OneByte(acc: Accumulator, alphabet: Alphabet, group: string, behavior: Behavior)
    requires Ready(acc) && acc.bits == 0 && Suits(acc.alphabet, alphabet)
    requires |group| == 1 && IsByteString(group)
    ensures DecodeFrom(acc, EncodeGroup(alphabet, group), behavior) == Some(group)
  {
    var s := Sextets(group);
    assert EncodeGroup(alphabet, group) == [Letter(alphabet, s[0]), Letter(alphabet, s[1])] + "==";
    var a2 := FirstByte(acc, alphabet, s[0], s[1], "==", behavior);
    PadEnds(a2, "==", behavior);
    JoinFirst(ByteOf(group[0]), 0);
    ByteIsChar(group, 0);
    assert group == [group[0]] + "";
  }

  lemma TwoBytes(acc: Accumulator, alphabet: Alphabet, group: string, behavior: Behavior)
    requires Ready(acc) && acc.bits == 0 && Suits(acc.alphabet, alphabet)
    requires |group| == 2 && IsByteString(group)
    ensures DecodeFrom(acc, EncodeGroup(alphabet, group), behavior) == Some(group)
  {
    var s := Sextets(group);
    var tail := [Letter(alphabet, s[2])] + "=";
    assert EncodeGroup(alphabet, group) == [Letter(alphabet, s[0]), Letter(alphabet, s[1])] + tail;
    var a2 := FirstByte(acc, alphabet, s[0], s[1], tail, behavior);
    var a3 := ReadLetter(a2, alphabet, s[2], "=", behavior);
    PadEnds(a3, "=", behavior);
    JoinFirst(ByteOf(group[0]), ByteOf(group[1]));
    JoinSecond(ByteOf(group[0]), ByteOf(group[1]), 0);
    ByteIsChar(group, 0);
    ByteIsChar(group, 1);
    assert [group[1]] + "" == [group[1]] && group == [group[0]] + [group[1]];
  }

  lemma {:induction false} DecodeEncodedFrom(acc: Accumulator, alphabet: Alphabet, s: string, behavior: Behavior)
    requires Ready(acc) && acc.bits == 0 && Suits(acc.alphabet, alphabet) && IsByteString(s)
    ensures DecodeFrom(acc, Encoded(alphabet, s), behavior) == Some(s)
    decreases |s|
  {
    if s == "" {
    } else if |s| == 1 {
      OneByte(acc, alphabet, s, behavior);
    } else if |s| == 2 {
      TwoBytes(acc, alphabet, s, behavior);
    } else {
      assert IsByteString(s[..3]) && IsByteString(s[3..]);
      EncodedUnfold(alphabet, s);
      var next := ThreeBytes(acc, alphabet, s[..3], Encoded(alphabet, s[3..]), behavior);
      DecodeEncodedFrom(next, alphabet, s[3..], behavior);
      assert s == s[..3] + s[3..];
    }
  }

  /** Decoding inverts encoding, with the alphabet given or detected, whatever the behavior. */
  lemma DecodeEncoded(s: string, alphabet: Alphabet, known: Alphabet, behavior: Behavior)
    requires IsByteString(s) && Suits(known, alphabet)
    ensures Decoded(Encoded(alphabet, s), known, behavior) == Some(s)
  {
    DecodeEncodedFrom(Accumulator(known, 0, 0), alphabet, s, behavior);
  }
}

/** string_process_escapes (common/common.cpp): unescaping a buffer in place with two indices. */
module Escapes {
  import opened Base

  /**
   What strtol in base 16 makes of two characters when it takes both: two digits, or a digit after
   a space or a sign. The value is converted to char.
   */
  function HexPair(a: char, b: char): Option<char> {
    match HexValue(b)
    case None => None
    case Some(low) =>
      match HexValue(a)
      case Some(high) => Some((16 * high + low) as char)
      case None =>
        if IsSpace(a) || a == '+' then Some(low as char)
        else if a == '-' then Some(((256 - low) % 256) as char)
        else None
  }

  /** The character a one-letter escape stands for. */
  function Simple(c: char): Option<char> {
    if c == 'n' then Some('\n')
    else if c == 'r' then Some('\r')
    else if c == 't' then Some('\t')
    else if c == '\'' || c == '"' || c == '\\' then Some(c)
    else None
  }

  /** The unit that starts at `i`: what it stands for, and how many characters it takes. */
  function Unit(s: string, i: nat): (r: (string, nat))
    requires i < |s|
    ensures 1 <= |r.0| <= r.1 <= |s| - i
  {
    if s[i] != '\\' || i + 1 == |s| then ([s[i]], 1)
    else if Simple(s[i + 1]).Some? then ([Simple(s[i + 1]).value], 2)
    else if s[i + 1] == 'x' && i + 3 < |s| && HexPair(s[i + 2], s[i + 3]).Some? then
      ([HexPair(s[i + 2], s[i + 3]).value], 4)
    else (['\\', s[i + 1]], 2)
  }

  /** The unescaped text from `i` on, unit by unit. */
  function UnescapeFrom(s: string, i: nat): string
    requires i <= |s|
    decreases |s| - i
  {
    if i == |s| then "" else Unit(s, i).0 + UnescapeFrom(s, i + Unit(s, i).1)
  }

  function Unescape(s: string): string {
    UnescapeFrom(s, 0)
  }

  lemma NextUnit(done: string, s: string, i: nat)
    requires i < |s|
    ensures done + UnescapeFrom(s, i) == done + Unit(s, i).0 + UnescapeFrom(s, i + Unit(s, i).1)
  {
  }

  lemma AllDone(done: string, s: string)
    ensures done + UnescapeFrom(s, |s|) == done
  {
  }

  method ProcessEscapes(input: array<char>) returns (length: nat)
    modifies input
    ensures length <= input.Length && input[..length] == Unescape(old(input[..]))
  {
    hide HexPair, Simple, UnescapeFrom;
    ghost var text := input[..];
    ghost var done := "";
    var outputIdx := 0;
    var inputIdx := 0;
    while inputIdx < input.Length
      invariant 0 <= outputIdx <= inputIdx <= input.Length
      invariant forall k :: inputIdx <= k < input.Length ==> input[k] == text[k]
      invariant outputIdx == |done| && forall k :: 0 <= k < outputIdx ==> input[k] == done[k]
      invariant done + UnescapeFrom(text, inputIdx) == Unescape(text)
    {
      ghost var unit := Unit(text, inputIdx);
      NextUnit(done, text, inputIdx);
      if input[inputIdx] == '\\' && inputIdx + 1 < input.Length {
        inputIdx := inputIdx + 1;
        var c := input[inputIdx];
        var simple := Simple(c);
        var hex := if c == 'x' && inputIdx + 2 < input.Length then HexPair(input[inputIdx + 1], input[inputIdx + 2]) else None;
        if simple.Some? {
          input[outputIdx] := simple.value;
          outputIdx := outputIdx + 1;
        } else if hex.Some? {
          inputIdx := inputIdx + 2;
          input[outputIdx] := hex.value;
          outputIdx := outputIdx + 1;
        } else {
          // the second character written may be the one that is read
          input[outputIdx] := '\\';
          input[outputIdx + 1] := input[inputIdx];
          outputIdx := outputIdx + 2;
        }
      } else {
        input[outputIdx] := input[inputIdx];
        outputIdx := outputIdx + 1;
      }
      inputIdx := inputIdx + 1;
      done := done + unit.0;
    }
    assert input[..outputIdx] == done;
    AllDone(done, text);
    length := outputIdx;
  }

  lemma UnitShift(a: string, s: string, i: nat)
    requires i < |s|
    ensures Unit(a + s, |a| + i) == Unit(s, i)
  {
    hide HexPair, Simple;
    assert forall k :: 0 <= k < |s| ==> (a + s)[|a| + k] == s[k];
    assert i + 1 < |s| ==> (a + s)[|a| + i + 1] == s[i + 1];
    assert i + 2 < |s| ==> (a + s)[|a| + i + 2] == s[i + 2];
    assert i + 3 < |s| ==> (a + s)[|a| + i + 3] == s[i + 3];
  }

  /** Unescaping what follows a unit does not depend on what came before. */
  lemma {:induction false} UnescapeShift(a: string, s: string, i: nat)
    requires i <= |s|
    ensures UnescapeFrom(a + s, |a| + i) == UnescapeFrom(s, i)
    decreases |s| - i
  {
    hide Unit, UnescapeFrom;
    if i < |s| {
      UnitShift(a, s, i);
      Unfolded(a + s, |a| + i);
      Unfolded(s, i);
      UnescapeShift(a, s, i + Unit(s, i).1);
    } else {
      NothingLeft(a + s);
      NothingLeft(s);
    }
  }

  lemma Unfolded(s: string, i: nat)
    requires i < |s|
    ensures UnescapeFrom(s, i) == Unit(s, i).0 + UnescapeFrom(s, i + Unit(s, i).1)
  {
    hide Unit;
  }

  lemma NothingLeft(s: string)
    ensures UnescapeFrom(s, |s|) == ""
  {
  }

  /** A way of writing any text so that unescaping gives it back. */
  function Escape(s: string): string {
    if s == "" then ""
    else (if s[0] == '\\' then "\\\\" else [s[0]]) + Escape(s[1..])
  }

  lemma {:induction false} UnescapeEscape(s: string)
    ensures Unescape(Escape(s)) == s
  {
    if s != "" {
      UnescapeEscape(s[1..]);
      var first := if s[0] == '\\' then "\\\\" else [s[0]];
      var e := first + Escape(s[1..]);
      assert Unit(e, 0) == ([s[0]], |first|);
      UnescapeShift(first, Escape(s[1..]), 0);
    }
  }

  /** An escape that is not known, or an `x` without its digits, stays as it is written. */
  lemma UnknownEscapeStays(c: char, rest: string)
    requires Simple(c).None?
    requires c == 'x' && |rest| >= 2 ==> HexPair(rest[0], rest[1]).None?
    ensures Unescape(['\\', c] + rest) == ['\\', c] + Unescape(rest)
  {
    UnescapeShift(['\\', c], rest, 0);
  }

  // ----- every escape by itself

  const HEX_DIGITS := "0123456789abcdef"
  const UPPER_HEX_DIGITS := "0123456789ABCDEF"

  lemma PlainStays(c: char, rest: string)
    requires c != '\\'
    ensures Unescape([c] + rest) == [c] + Unescape(rest)
  {
    UnescapeShift([c], rest, 0);
  }

  /** Of the two characters of an escape with a known letter one is left: what the letter stands for. */
  lemma LettersUnescape(rest: string)
    ensures Unescape("\\n" + rest) == "\n" + Unescape(rest)
    ensures Unescape("\\r" + rest) == "\r" + Unescape(rest)
    ensures Unescape("\\t" + rest) == "\t" + Unescape(rest)
    ensures Unescape("\\'" + rest) == "'" + Unescape(rest)
    ensures Unescape("\\\"" + rest) == "\"" + Unescape(rest)
    ensures Unescape("\\\\" + rest) == "\\" + Unescape(rest)
  {
    LetterUnescapes('n', rest);
    LetterUnescapes('r', rest);
    LetterUnescapes('t', rest);
    LetterUnescapes('\'', rest);
    LetterUnescapes('"', rest);
    LetterUnescapes('\\', rest);
  }

  lemma LetterUnescapes(c: char, rest: string)
    requires Simple(c).Some?
    ensures Unescape(['\\', c] + rest) == [Simple(c).value] + Unescape(rest)
  {
    UnescapeShift(['\\', c], rest, 0);
  }

  /** After `\x`, two hexadecimal digits give the character they number, in either case of letters. */
  lemma HexUnescapes(v: nat, high: char, low: char, rest: string)
    requires v < 256
    requires high == HEX_DIGITS[v / 16] || high == UPPER_HEX_DIGITS[v / 16]
    requires low == HEX_DIGITS[v % 16] || low == UPPER_HEX_DIGITS[v % 16]
    ensures Unescape("\\x" + [high, low] + rest) == [v as char] + Unescape(rest)
  {
    hide HexValue, Unescape;
    DigitHas(v / 16);
    DigitHas(v % 16);
    FourUnescape(high, low, rest);
  }

  lemma DigitHas(n: nat)
    requires n < 16
    ensures HexValue(HEX_DIGITS[n]) == HexValue(UPPER_HEX_DIGITS[n]) == Some(n)
  {
  }

  lemma FourUnescape(a: char, b: char, rest: string)
    requires HexPair(a, b).Some?
    ensures Unescape("\\x" + [a, b] + rest) == [HexPair(a, b).value] + Unescape(rest)
  {
    UnescapeShift("\\x" + [a, b], rest, 0);
  }

  /**
   strtol also takes one digit behind a space or a sign: the digit's value, or for a minus its
   negative as a byte.
   */
  lemma OneDigitUnescapes(d: nat, low: char, rest: string)
    requires d < 16 && (low == HEX_DIGITS[d] || low == UPPER_HEX_DIGITS[d])
    ensures forall a :: a in " \t\n\U{0B}\U{0C}\r+" ==> Unescape("\\x" + [a, low] + rest) == [d as char] + Unescape(rest)
    ensures Unescape("\\x" + ['-', low] + rest) == [(if d == 0 then 0 else 256 - d) as char] + Unescape(rest)
  {
    DigitHas(d);
    forall a | a in " \t\n\U{0B}\U{0C}\r+"
      ensures Unescape("\\x" + [a, low] + rest) == [d as char] + Unescape(rest)
    {
      FourUnescape(a, low, rest);
    }
    FourUnescape('-', low, rest);
  }

  lemma NoPair(a: char, b: char)
    requires b !in HEX_DIGITS + UPPER_HEX_DIGITS || a !in HEX_DIGITS + UPPER_HEX_DIGITS + " \t\n\U{0B}\U{0C}\r+-"
    ensures HexPair(a, b).None?
  {
    hide HexValue;
    OnlyDigitsHave(a);
    OnlyDigitsHave(b);
  }

  /** Two characters that are no such number leave the `x` unknown. */
  lemma NoNumberStays(a: char, b: char, rest: string)
    requires b !in HEX_DIGITS + UPPER_HEX_DIGITS || a !in HEX_DIGITS + UPPER_HEX_DIGITS + " \t\n\U{0B}\U{0C}\r+-"
    ensures Unescape("\\x" + [a, b] + rest) == "\\x" + Unescape([a, b] + rest)
  {
    hide HexPair, Unescape;
    NoPair(a, b);
    assert "\\x" + [a, b] + rest == ['\\', 'x'] + ([a, b] + rest);
    UnknownEscapeStays('x', [a, b] + rest);
  }

  lemma OnlyDigitsHave(c: char)
    ensures HexValue(c).Some? ==> c in HEX_DIGITS + UPPER_HEX_DIGITS
  {
    if HexValue(c).Some? {
      var n := HexValue(c).value;
      assert c == HEX_DIGITS[n] || c == UPPER_HEX_DIGITS[n];
    }
  }

  /** A backslash at the end stays. */
  lemma LastBackslashStays()
    ensures Unescape("\\") == "\\" && Unescape("") == ""
  {
    assert Unit("\\", 0) == ("\\", 1);
    AllDone("\\", "\\");
  }

  /** Where no escape can go across the middle, both sides are unescaped by themselves. */
  lemma UnescapeJoin(a: string, b: string)
    requires forall k :: 0 <= k < |a| && |a| - 3 <= k ==> a[k] != '\\'
    ensures Unescape(a + b) == Unescape(a) + Unescape(b)
  {
    JoinFrom(a, b, 0);
  }

  lemma {:induction false} JoinFrom(a: string, b: string, i: nat)
    requires i <= |a| && forall k :: i <= k < |a| && |a| - 3 <= k ==> a[k] != '\\'
    ensures UnescapeFrom(a + b, i) == UnescapeFrom(a, i) + Unescape(b)
    decreases |a| - i
  {
    hide Unit, UnescapeFrom;
    if i == |a| {
      UnescapeShift(a, b, 0);
      NothingLeft(a);
    } else {
      UnitInside(a, b, i);
      Unfolded(a + b, i);
      Unfolded(a, i);
      JoinFrom(a, b, i + Unit(a, i).1);
      Regrouped(Unit(a, i).0, UnescapeFrom(a, i + Unit(a, i).1), Unescape(b));
    }
  }

  lemma Regrouped(a: string, b: string, c: string)
    ensures a + (b + c) == a + b + c
  {
  }

  lemma UnitInside(a: string, b: string, i: nat)
    requires i < |a| && forall k :: i <= k < |a| && |a| - 3 <= k ==> a[k] != '\\'
    ensures Unit(a + b, i) == Unit(a, i)
  {
    hide HexPair, Simple;
    assert forall k :: i <= k < |a| ==> (a + b)[k] == a[k];
  }
}

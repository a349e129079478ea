/**
 A healing marker is a string of digits; where a JSON text does not contain it and escapes no digit,
 no key or string of its value contains it.
 */
module JsonUnmarked {
  import opened Base
  import opened JsonMachine
  import opened JsonDump
  import opened JsonValues
  import opened JsonUnicode
  import opened JsonGrammar
  import opened JsonCleaning
  import opened JsonPartialResults

  /** A \u escape of a digit stands at an index. */
  predicate EscapesDigit(s: string, i: nat) {
    i + 6 <= |s| && s[i..i + 5] == "\\u003" && s[i + 5] in DIGITS
  }

  predicate NoEscapedDigits(s: string) {
    forall i: nat :: i < |s| ==> !EscapesDigit(s, i)
  }

  lemma PartEscapesNone(a: string, s: string, b: string)
    requires NoEscapedDigits(a + s + b)
    ensures NoEscapedDigits(s)
  {
    var whole := a + s + b;
    forall i: nat | i < |s|
      ensures !EscapesDigit(s, i)
    {
      assert !EscapesDigit(whole, |a| + i);
      if i + 6 <= |s| {
        assert whole[|a| + i..|a| + i + 5] == s[i..i + 5] && whole[|a| + i + 5] == s[i + 5];
      }
    }
  }

  // ----- one string

  /** The unit shows no digit, or is one. */
  predicate DigitOnlyAsWritten(u: Unit)
    requires WellFormed(u)
  {
    || (u.Shown? && |u.bytes| == 1)
    || forall i :: 0 <= i < |Bytes(u)| ==> !IsDigit(Bytes(u)[i])
  }

  lemma DigitBytes(u: Unit, rest: string)
    requires WellFormed(u) && NoEscapedDigits(Written(u) + rest)
    ensures DigitOnlyAsWritten(u) && Bytes(u) != ""
  {
    hide Decode, SpellsFour;
    match u
    case Shown(bytes, point) => ShownBytes(bytes, point);
    case Letter(letter) => LetterMeans(letter);
    case Four(digits, point) =>
      if 0x30 <= point < 0x3A {
        DigitEscaped(digits, point, rest);
      }
    case Pair(_, _, _) =>
  }

  lemma DigitEscaped(digits: string, point: nat, rest: string)
    requires 0x30 <= point < 0x3A && SpellsFour(digits, point)
    ensures !NoEscapedDigits("\\u" + digits + rest)
  {
    var s := "\\u" + digits + rest;
    assert point / 0x1000 == 0 && point / 0x100 % 16 == 0 && point / 0x10 % 16 == 3;
    assert s[0..5] == "\\u003";
    assert s[5] == digits[3] == HEX_LETTERS[point % 16] == DIGITS[point % 16];
    assert EscapesDigit(s, 0);
  }

  lemma FirstWritten(u: Unit, rest: string, m: string)
    requires WellFormed(u) && NoEscapedDigits(Written(u) + rest) && m != "" && IsDigit(m[0])
    requires m <= Bytes(u) + Unescaped(rest)
    ensures Written(u) == [m[0]] && m[1..] <= Unescaped(rest)
  {
    hide Unescaped, NoEscapedDigits, IsDigit, Utf8Bytes, Meant, Decode;
    DigitBytes(u, rest);
    var s := Bytes(u) + Unescaped(rest);
    assert s[0] == Bytes(u)[0] == m[0];
    assert Bytes(u) == [m[0]];
    assert m == s[..|m|] && m[1..] == Unescaped(rest)[..|m| - 1];
  }

  /** Digits at the front of the string are at the front of what is written. */
  lemma {:induction false} FrontWritten(us: seq<Unit>, m: string)
    requires AllWellFormed(us) && NoEscapedDigits(WrittenAll(us)) && (forall c :: c in m ==> IsDigit(c))
    requires m <= Unescaped(WrittenAll(us))
    ensures m <= WrittenAll(us)
    decreases |us|
  {
    hide Unescaped, WellFormed, NoEscapedDigits, IsDigit, Bytes, Written;
    if us == [] {
      NothingUnescaped();
    } else if m != "" {
      var rest := WrittenAll(us[1..]);
      UnitUnescaped(us[0], rest);
      FirstWritten(us[0], rest, m);
      assert Written(us[0]) + rest + "" == WrittenAll(us);
      PartEscapesNone(Written(us[0]), rest, "");
      FrontWritten(us[1..], m[1..]);
      assert m == [m[0]] + m[1..];
    }
  }

  lemma NothingUnescaped()
    ensures Unescaped(WrittenAll([])) == ""
  {
  }

  /** Digits in the string are in what is written. */
  lemma {:induction false} DigitsWritten(us: seq<Unit>, m: string, i: nat)
    requires AllWellFormed(us) && NoEscapedDigits(WrittenAll(us)) && DigitMarker(m)
    requires Occurs(Unescaped(WrittenAll(us)), m, i)
    ensures Contains(WrittenAll(us), m)
    decreases |us|
  {
    hide Unescaped, WellFormed, NoEscapedDigits, IsDigit, Bytes, Written, Contains, Occurs;
    OccursRoom(Unescaped(WrittenAll(us)), m, i);
    if us == [] {
      NothingUnescaped();
    } else if i == 0 {
      AtFront(us, m);
    } else {
      var rest := WrittenAll(us[1..]);
      UnitUnescaped(us[0], rest);
      BehindUnit(us[0], rest, m, i);
      assert Written(us[0]) + rest + "" == WrittenAll(us);
      PartEscapesNone(Written(us[0]), rest, "");
      DigitsWritten(us[1..], m, i - |Bytes(us[0])|);
      ContainsPart(Written(us[0]), rest, "", m);
    }
  }

  lemma AtFront(us: seq<Unit>, m: string)
    requires AllWellFormed(us) && NoEscapedDigits(WrittenAll(us)) && DigitMarker(m)
    requires Occurs(Unescaped(WrittenAll(us)), m, 0)
    ensures Contains(WrittenAll(us), m)
  {
    hide Unescaped, WellFormed, NoEscapedDigits, IsDigit, WrittenAll, Contains;
    FrontWritten(us, m);
    assert WrittenAll(us)[0..|m|] == m;
    ContainsAt(WrittenAll(us), m, 0);
  }

  lemma BehindUnit(u: Unit, rest: string, m: string, i: nat)
    requires WellFormed(u) && NoEscapedDigits(Written(u) + rest) && DigitMarker(m)
    requires i > 0 && Occurs(Bytes(u) + Unescaped(rest), m, i)
    ensures i >= |Bytes(u)| && Occurs(Unescaped(rest), m, i - |Bytes(u)|)
  {
    hide Unescaped, NoEscapedDigits, IsDigit, Utf8Bytes, Meant, Decode;
    DigitBytes(u, rest);
    var s := Bytes(u) + Unescaped(rest);
    assert s[i] == m[0] && m[0] in m;
    assert s[i..i + |m|] == Unescaped(rest)[i - |Bytes(u)|..i - |Bytes(u)| + |m|];
  }

  // ----- the value of a text

  lemma QuotedUnmarked(us: seq<Unit>, m: string)
    requires AllWellFormed(us) && NoEscapedDigits(InQuotes(us)) && DigitMarker(m)
    requires Contains(Unescaped(WrittenAll(us)), m)
    ensures Contains(InQuotes(us), m)
  {
    hide AllWellFormed, Contains, DigitMarker, NoEscapedDigits, Unescaped, WrittenAll;
    PartEscapesNone("\"", WrittenAll(us), "\"");
    var i := FoundAt(Unescaped(WrittenAll(us)), m);
    DigitsWritten(us, m, i);
    ContainsPart("\"", WrittenAll(us), "\"", m);
  }

  lemma FoundAt(s: string, p: string) returns (i: nat)
    requires Contains(s, p)
    ensures Occurs(s, p, i)
  {
    i := Find(s, p, 0).value;
  }

  /** If the value of a tree has the marker, so has the tree's text. */
  lemma {:induction false} TreeMarked(show: string -> string, t: Tree, m: string)
    requires Grammatical(t) && NoEscapedDigits(TextOf(t)) && DigitMarker(m) && HasMarker(Valued(show, t), m)
    ensures Contains(TextOf(t), m)
    decreases t, 0
  {
    hide Contains, DigitMarker, NoEscapedDigits, Unescaped, WrittenAll;
    match t
    case Word(_) =>
    case Numeral(_, _, _, _) =>
    case Quoted(units) => QuotedUnmarked(units, m);
    case List(blank, entries) =>
      BracketsEscapeNone("[", blank, EntriesText(entries), "]");
      EntriesMarked(show, entries, m);
      BracketsContain("[", blank, EntriesText(entries), "]", m);
    case Table(blank, pairs) =>
      BracketsEscapeNone("{", blank, PairsText(pairs), "}");
      PairsMarked(show, pairs, m);
      BracketsContain("{", blank, PairsText(pairs), "}", m);
  }

  lemma BracketsEscapeNone(open: string, blank: string, body: string, close: string)
    requires NoEscapedDigits(open + (blank + body) + close)
    ensures NoEscapedDigits(body)
  {
    hide NoEscapedDigits;
    assert open + (blank + body) + close == (open + blank) + body + close;
    PartEscapesNone(open + blank, body, close);
  }

  lemma BracketsContain(open: string, blank: string, body: string, close: string, m: string)
    requires Contains(body, m)
    ensures Contains(open + (blank + body) + close, m)
  {
    hide Contains;
    assert open + (blank + body) + close == (open + blank) + body + close;
    ContainsPart(open + blank, body, close, m);
  }

  lemma {:induction false} EntryMarked(show: string -> string, e: Entry, m: string)
    requires EntryGrammatical(e) && NoEscapedDigits(EntryText(e)) && DigitMarker(m) && HasMarker(Valued(show, e.tree), m)
    ensures Contains(EntryText(e), m)
    decreases e, 0
  {
    hide Contains, DigitMarker, Grammatical, HasMarker, NoEscapedDigits, TextOf, Valued;
    assert EntryText(e) == e.before + TextOf(e.tree) + e.behind;
    PartEscapesNone(e.before, TextOf(e.tree), e.behind);
    TreeMarked(show, e.tree, m);
    ContainsPart(e.before, TextOf(e.tree), e.behind, m);
  }

  lemma {:induction false} EntriesMarked(show: string -> string, entries: seq<Entry>, m: string)
    requires EntriesGrammatical(entries) && NoEscapedDigits(EntriesText(entries)) && DigitMarker(m)
    requires ItemsHave(Items(show, entries), m)
    ensures Contains(EntriesText(entries), m)
    decreases entries, 1
  {
    hide Contains, DigitMarker, EntryGrammatical, EntryText, HasMarker, NoEscapedDigits, Valued;
    EntriesParts(entries);
    var v, rest := Items(show, entries)[0], Items(show, entries)[1..];
    assert v == Valued(show, entries[0].tree) && rest == Items(show, entries[1..]);
    if |entries| == 1 {
      EntryMarked(show, entries[0], m);
    } else {
      CommaParts(EntryText(entries[0]), EntriesText(entries[1..]), m);
      if HasMarker(v, m) {
        EntryMarked(show, entries[0], m);
      } else {
        EntriesMarked(show, entries[1..], m);
      }
    }
  }

  lemma CommaParts(a: string, b: string, m: string)
    ensures NoEscapedDigits(a + ("," + b)) ==> NoEscapedDigits(a) && NoEscapedDigits(b)
    ensures Contains(a, m) || Contains(b, m) ==> Contains(a + ("," + b), m)
  {
    hide Contains, NoEscapedDigits;
    var s := a + ("," + b);
    assert s == "" + a + ("," + b) && s == (a + ",") + b + "";
    if NoEscapedDigits(s) {
      PartEscapesNone("", a, "," + b);
      PartEscapesNone(a + ",", b, "");
    }
    if Contains(a, m) {
      ContainsPart("", a, "," + b, m);
    }
    if Contains(b, m) {
      ContainsPart(a + ",", b, "", m);
    }
  }

  lemma {:induction false} PairMarked(show: string -> string, p: Pairing, m: string)
    requires PairGrammatical(p) && NoEscapedDigits(PairText(p)) && DigitMarker(m)
    requires Contains(Unescaped(WrittenAll(p.key)), m) || HasMarker(Valued(show, p.entry.tree), m)
    ensures Contains(PairText(p), m)
    decreases p, 1
  {
    hide AllWellFormed, Contains, DigitMarker, EntryGrammatical, EntryText, HasMarker, InQuotes, NoEscapedDigits, Unescaped, Valued,
      WrittenAll;
    var front, key, behind := p.before, InQuotes(p.key), p.middle + (":" + EntryText(p.entry));
    var before := p.before + InQuotes(p.key) + p.middle + ":";
    assert PairText(p) == front + key + behind && PairText(p) == before + EntryText(p.entry) + "";
    PartEscapesNone(front, key, behind);
    PartEscapesNone(before, EntryText(p.entry), "");
    if HasMarker(Valued(show, p.entry.tree), m) {
      EntryMarked(show, p.entry, m);
      ContainsPart(before, EntryText(p.entry), "", m);
    } else {
      QuotedUnmarked(p.key, m);
      ContainsPart(front, key, behind, m);
    }
  }

  lemma {:induction false} PairsMarked(show: string -> string, pairs: seq<Pairing>, m: string)
    requires PairsGrammatical(pairs) && NoEscapedDigits(PairsText(pairs)) && DigitMarker(m)
    requires MembersHave(Members(show, pairs), m)
    ensures Contains(PairsText(pairs), m)
    decreases pairs, 1
  {
    hide Contains, DigitMarker, PairGrammatical, PairText, HasMarker, NoEscapedDigits, Unescaped, Valued, WrittenAll;
    PairsParts(pairs);
    var v, rest := Members(show, pairs)[0], Members(show, pairs)[1..];
    assert v == Member(Unescaped(WrittenAll(pairs[0].key)), Valued(show, pairs[0].entry.tree));
    assert rest == Members(show, pairs[1..]);
    if |pairs| == 1 {
      PairMarked(show, pairs[0], m);
    } else {
      CommaParts(PairText(pairs[0]), PairsText(pairs[1..]), m);
      if Contains(v.key, m) || HasMarker(v.value, m) {
        PairMarked(show, pairs[0], m);
      } else {
        PairsMarked(show, pairs[1..], m);
      }
    }
  }

  /** The value of a JSON text has the marker in no key or string, if the text has it nowhere and escapes no digit. */
  lemma TextUnmarked(show: string -> string, text: string, marker: string)
    requires Accepts(text) && DigitMarker(marker) && !Contains(text, marker) && NoEscapedDigits(text)
    ensures !HasMarker(ValueOf(show, text), marker)
  {
    hide Accepts, Contains, DigitMarker, EntryGrammatical, EntryText, HasMarker, NoEscapedDigits, Valued, ValueOf;
    var e := EntryOf(text);
    EntryAccepted(show, e);
    if HasMarker(ValueOf(show, text), marker) {
      EntryMarked(show, e, marker);
    }
  }
}

/**
 The grammar of JSON texts (RFC 8259, sections 2 to 7) as syntax trees: the machine of JsonMachine
 accepts exactly the texts of trees, and the value built while it reads one is what the tree denotes.
 */
module JsonGrammar {
  import opened Base
  import opened JsonMachine
  import opened JsonDump
  import opened JsonValues
  import opened JsonUnicode

  const WHITESPACE := " \t\n\r"
  const DIGITS := "0123456789"

  /** `List` and `Table` keep the blanks of an empty pair of brackets in `blank`. */
  datatype Tree =
    | Word(word: string)
    | Numeral(sign: string, whole: string, fraction: string, exponent: string)
    | Quoted(units: seq<Unit>)
    | List(blank: string, entries: seq<Entry>)
    | Table(blank: string, pairs: seq<Pairing>)

  datatype Entry = Entry(before: string, tree: Tree, behind: string)

  datatype Pairing = Pairing(before: string, key: seq<Unit>, middle: string, entry: Entry)

  predicate Blank(s: string) {
    forall i :: 0 <= i < |s| ==> s[i] in WHITESPACE
  }

  predicate Digits(s: string) {
    s != "" && forall i :: 0 <= i < |s| ==> s[i] in DIGITS
  }

  predicate IsFraction(s: string) {
    s == "" || (s[0] == '.' && Digits(s[1..]))
  }

  predicate IsExponent(s: string) {
    s == "" || (s[0] in "eE" && |s| > 1 && Digits(if s[1] in "+-" then s[2..] else s[1..]))
  }

  predicate IsWhole(s: string) {
    s == "0" || (Digits(s) && s[0] != '0')
  }

  predicate Grammatical(t: Tree)
    decreases t, 0
  {
    match t
    case Word(word) => word == "true" || word == "false" || word == "null"
    case Numeral(sign, whole, fraction, exponent) =>
      (sign == "" || sign == "-") && IsWhole(whole) && IsFraction(fraction) && IsExponent(exponent)
    case Quoted(units) => AllWellFormed(units)
    case List(blank, entries) => (if entries == [] then Blank(blank) else blank == "") && EntriesGrammatical(entries)
    case Table(blank, pairs) => (if pairs == [] then Blank(blank) else blank == "") && PairsGrammatical(pairs)
  }

  predicate EntryGrammatical(e: Entry)
    decreases e, 0
  {
    Blank(e.before) && Grammatical(e.tree) && Blank(e.behind)
  }

  predicate EntriesGrammatical(entries: seq<Entry>)
    decreases entries, 1
  {
    entries == [] || (EntryGrammatical(entries[0]) && EntriesGrammatical(entries[1..]))
  }

  predicate PairGrammatical(p: Pairing)
    decreases p, 0
  {
    Blank(p.before) && AllWellFormed(p.key) && Blank(p.middle) && EntryGrammatical(p.entry)
  }

  predicate PairsGrammatical(pairs: seq<Pairing>)
    decreases pairs, 1
  {
    pairs == [] || (PairGrammatical(pairs[0]) && PairsGrammatical(pairs[1..]))
  }

  function InQuotes(units: seq<Unit>): string {
    "\"" + WrittenAll(units) + "\""
  }

  /** The text of a tree. */
  function TextOf(t: Tree): string
    decreases t, 0
  {
    match t
    case Word(word) => word
    case Numeral(sign, whole, fraction, exponent) => sign + whole + fraction + exponent
    case Quoted(units) => InQuotes(units)
    case List(blank, entries) => "[" + (blank + EntriesText(entries)) + "]"
    case Table(blank, pairs) => "{" + (blank + PairsText(pairs)) + "}"
  }

  function EntryText(e: Entry): string
    decreases e, 0
  {
    e.before + (TextOf(e.tree) + e.behind)
  }

  function EntriesText(entries: seq<Entry>): string
    decreases entries, 1
  {
    if entries == [] then ""
    else EntryText(entries[0]) + if |entries| == 1 then "" else "," + EntriesText(entries[1..])
  }

  function PairText(p: Pairing): string
    decreases p, 0
  {
    p.before + (InQuotes(p.key) + (p.middle + (":" + EntryText(p.entry))))
  }

  function PairsText(pairs: seq<Pairing>): string
    decreases pairs, 1
  {
    if pairs == [] then "" else PairText(pairs[0]) + if |pairs| == 1 then "" else "," + PairsText(pairs[1..])
  }

  // ----- what trees denote

  /** The value `j` is what the tree says; strings are compared as sequences of code points. */
  predicate Denotes(show: string -> string, t: Tree, j: Json)
    decreases t, 0
  {
    match t
    case Word(word) => j == if word == "null" then Null else Bool(word == "true")
    case Numeral(_, _, _, _) => j == Num(show(TextOf(t)))
    case Quoted(units) => j.Str? && Decode(j.s) == Some(MeantAll(units))
    case List(_, entries) => j.Arr? && EntriesDenote(show, entries, j.items)
    case Table(_, pairs) => j.Obj? && PairsDenote(show, pairs, j.members)
  }

  predicate EntriesDenote(show: string -> string, entries: seq<Entry>, items: seq<Json>)
    decreases entries, 1
  {
    && (entries == [] <==> items == [])
    && (entries != [] ==> Denotes(show, entries[0].tree, items[0]) && EntriesDenote(show, entries[1..], items[1..]))
  }

  predicate PairsDenote(show: string -> string, pairs: seq<Pairing>, members: seq<Member>)
    decreases pairs, 1
  {
    && (pairs == [] <==> members == [])
    && (pairs != [] ==>
          && Decode(members[0].key) == Some(MeantAll(pairs[0].key))
          && Denotes(show, pairs[0].entry.tree, members[0].value)
          && PairsDenote(show, pairs[1..], members[1..]))
  }

  // ----- reading a tree's text

  /** Blanks outside tokens change nothing. */
  lemma {:induction false} BlankReads(show: string -> string, r: Reader, s: string)
    requires BetweenTokens(r.st) && Blank(s)
    ensures Read(show, r, s) == Some(r)
    decreases |s|
  {
    if s != "" {
      assert Next(show, r, s[0]) == Some(r);
      BlankReads(show, r, s[1..]);
    }
  }

  /** Blanks behind a value complete it. */
  lemma BlankCompletes(show: string -> string, q: Reader, stack: seq<Container>, b: Build, s: string)
    requires Complete(show, q, stack, b) && Blank(s)
    ensures var e := Read(show, q, s); e.Some? && Complete(show, e.value, stack, b)
  {
    hide Put;
    if s != "" {
      var after := Reader(State(After, stack), b);
      assert Next(show, q, s[0]) == Some(after);
      BlankReads(show, after, s[1..]);
    }
  }

  lemma {:induction false} NumberRunAppend(p: NumberPart, a: string, b: string)
    ensures NumberRun(p, a + b) == if NumberRun(p, a).None? then None else NumberRun(NumberRun(p, a).value, b)
    decreases |a|
  {
    if a == "" {
      assert a + b == b;
    } else {
      assert (a + b)[0] == a[0] && (a + b)[1..] == a[1..] + b;
      if NumberStep(p, a[0]).Some? {
        NumberRunAppend(NumberStep(p, a[0]).value, a[1..], b);
      }
    }
  }

  /** Digits keep these parts of a number. */
  predicate Digital(p: NumberPart) {
    p.Integer? || p.Fraction? || p.ExponentDigits?
  }

  lemma {:induction false} DigitsRun(p: NumberPart, s: string)
    requires Digital(p) && (s == "" || Digits(s))
    ensures NumberRun(p, s) == Some(p)
    decreases |s|
  {
    if s != "" {
      assert IsDigit(s[0]);
      DigitsRun(p, s[1..]);
    }
  }

  lemma FractionRuns(p: NumberPart, s: string)
    requires (p.Zero? || p.Integer?) && IsFraction(s)
    ensures NumberRun(p, s) == Some(if s == "" then p else Fraction)
  {
    if s != "" {
      var d := s[1..];
      assert IsDigit(d[0]);
      DigitsRun(Fraction, d[1..]);
    }
  }

  lemma ExponentRuns(p: NumberPart, s: string)
    requires (p.Zero? || p.Integer? || p.Fraction?) && IsExponent(s)
    ensures NumberRun(p, s) == Some(if s == "" then p else ExponentDigits)
  {
    if s != "" {
      var d := if s[1] in "+-" then s[2..] else s[1..];
      assert IsDigit(d[0]) && s[1..][1..] == s[2..];
      DigitsRun(ExponentDigits, d[1..]);
      if s[1] in "+-" {
        assert NumberRun(ExponentSign, d) == Some(ExponentDigits);
        assert NumberRun(Exponent, s[1..]) == NumberRun(ExponentSign, s[2..]);
      } else {
        assert NumberRun(Exponent, d) == Some(ExponentDigits);
      }
    }
  }

  lemma WholeRuns(s: string)
    requires IsWhole(s)
    ensures var st := StartValue(START, s[0]);
            && st.Some? && st.value.mode.Number? && st.value.stack == []
            && NumberRun(st.value.mode.number, s[1..]) == Some(if s == "0" then Zero else Integer)
    ensures NumberRun(Minus, s) == Some(if s == "0" then Zero else Integer)
  {
    if s != "0" {
      assert IsDigit(s[0]);
      DigitsRun(Integer, s[1..]);
    }
  }

  /** A numeral is read as one number. */
  lemma NumeralRuns(t: Tree)
    requires t.Numeral? && Grammatical(t)
    ensures var text := TextOf(t);
            && text != ""
            && var st := StartValue(START, text[0]);
               && st.Some? && st.value.mode.Number? && st.value.stack == []
               && var e := NumberRun(st.value.mode.number, text[1..]);
                  e.Some? && NumberComplete(e.value)
  {
    hide NumberRun, IsWhole, IsFraction, IsExponent, NumberStep;
    var (sign, whole, fraction, exponent) := (t.sign, t.whole, t.fraction, t.exponent);
    WholeSolid(whole);
    WholeRuns(whole);
    var p := if whole == "0" then Zero else Integer;
    var q := if fraction == "" then p else Fraction;
    FractionRuns(p, fraction);
    ExponentRuns(q, exponent);
    var front := if sign == "" then whole[1..] else whole;
    var start := if sign == "" then StartValue(START, whole[0]).value.mode.number else Minus;
    NumberRunAppend(start, front, fraction);
    NumberRunAppend(start, front + fraction, exponent);
    assert TextOf(t)[1..] == front + fraction + exponent;
  }

  lemma WholeSolid(s: string)
    requires IsWhole(s)
    ensures s != ""
  {
  }

  lemma StartsAnywhere(st: State, c: char)
    requires Starts(st) && StartValue(START, c).Some?
    ensures Step(st, c) == StartValue(st, c)
  {
  }

  lemma NumeralReads(show: string -> string, r: Reader, t: Tree)
    requires Starts(r.st) && t.Numeral? && Grammatical(t)
    ensures var q := Read(show, r, TextOf(t));
            q.Some? && Complete(show, q.value, r.st.stack, Put(r.b, Num(show(TextOf(t)))))
  {
    hide NumberRun, TextOf, Put, NumberStep;
    var text := TextOf(t);
    NumeralRuns(t);
    var part := StartValue(START, text[0]).value.mode.number;
    StartsAnywhere(r.st, text[0]);
    var next := Reader(State(Number(part), r.st.stack), r.b.(token := [text[0]]));
    assert Next(show, r, text[0]) == Some(next);
    NumberReads(show, next, text[1..]);
    assert [text[0]] + text[1..] == text;
    PutToken(r.b, text, Num(show(text)));
  }

  lemma QuotedReads(show: string -> string, r: Reader, key: bool, units: seq<Unit>)
    requires AllWellFormed(units) && BetweenTokens(r.st) && Step(r.st, '"') == Some(State(Text(key, Plain), r.st.stack))
    requires key ==> r.b.frames != [] && r.b.frames[|r.b.frames| - 1].ObjectFrame?
    ensures var s := Unescaped(WrittenAll(units));
            Read(show, r, InQuotes(units))
            == Some(Reader(State(if key then Colon else After, r.st.stack), if key then Keyed(r.b, s) else Put(r.b, Str(s))))
  {
    hide Read, Next, Step, Unescaped, WrittenAll, AllWellFormed, Keyed, Put;
    var raw := WrittenAll(units);
    var inside := Reader(State(Text(key, Plain), r.st.stack), r.b.(token := ""));
    var end := inside.(b := r.b.(token := raw));
    QuoteOpensToken(show, r, inside);
    UnitsRun(units);
    TextRunReads(show, inside, raw);
    assert "" + raw == raw;
    ReadAppend(show, r, ['"'], raw);
    ReadSnoc(show, r, ['"'] + raw, '"');
    QuoteEndsToken(show, end, key, Unescaped(raw));
    SameWhatever(r.b, raw, Unescaped(raw));
    assert InQuotes(units) == ['"'] + raw + ['"'];
  }

  /** The characters of the last token do not matter. */
  lemma SameWhatever(b: Build, token: string, s: string)
    ensures b.frames != [] && b.frames[|b.frames| - 1].ObjectFrame? ==> Keyed(b.(token := token), s) == Keyed(b, s)
    ensures Put(b.(token := token), Str(s)) == Put(b, Str(s))
  {
  }

  /** The value that is built for a tree. */
  function Valued(show: string -> string, t: Tree): Json
    decreases t, 0
  {
    match t
    case Word(word) => if word == "null" then Null else Bool(word == "true")
    case Numeral(_, _, _, _) => Num(show(TextOf(t)))
    case Quoted(units) => Str(Unescaped(WrittenAll(units)))
    case List(_, entries) => Arr(Items(show, entries))
    case Table(_, pairs) => Obj(Members(show, pairs))
  }

  function Items(show: string -> string, entries: seq<Entry>): seq<Json>
    decreases entries, 1
  {
    if entries == [] then [] else [Valued(show, entries[0].tree)] + Items(show, entries[1..])
  }

  function Members(show: string -> string, pairs: seq<Pairing>): seq<Member>
    decreases pairs, 1
  {
    if pairs == [] then []
    else
      [Member(Unescaped(WrittenAll(pairs[0].key)), Valued(show, pairs[0].entry.tree))] + Members(show, pairs[1..])
  }

  lemma WordReads(show: string -> string, r: Reader, t: Tree)
    requires Starts(r.st) && t.Word? && Grammatical(t)
    ensures Read(show, r, TextOf(t)) == Some(Reader(State(After, r.st.stack), Put(r.b, Valued(show, t))))
  {
    hide Read, Put;
    var j := Valued(show, t);
    assert TextOf(t) == Dump(j);
    LiteralValueReads(show, r, j);
  }

  /** Where a value may start, reading a tree's text puts its value there. */
  lemma {:induction false} TreeReads(show: string -> string, r: Reader, t: Tree)
    requires Starts(r.st) && Grammatical(t)
    ensures var q := Read(show, r, TextOf(t)); q.Some? && Complete(show, q.value, r.st.stack, Put(r.b, Valued(show, t)))
    decreases t, 0
  {
    hide Read, Put, Unescaped, WrittenAll;
    match t
    case Word(_) => WordReads(show, r, t);
    case Numeral(_, _, _, _) => NumeralReads(show, r, t);
    case Quoted(units) => QuotedReads(show, r, false, units);
    case List(blank, entries) => ListReads(show, r, blank, entries);
    case Table(blank, pairs) => TableReads(show, r, blank, pairs);
  }

  lemma {:induction false} EntryReads(show: string -> string, r: Reader, e: Entry)
    requires Starts(r.st) && EntryGrammatical(e)
    ensures var q := Read(show, r, EntryText(e));
            q.Some? && Complete(show, q.value, r.st.stack, Put(r.b, Valued(show, e.tree)))
    decreases e, 0
  {
    hide Read, Put, Complete, Grammatical, TextOf, Valued;
    BlankReads(show, r, e.before);
    ReadAppend(show, r, e.before, TextOf(e.tree) + e.behind);
    TreeReads(show, r, e.tree);
    ReadAppend(show, r, TextOf(e.tree), e.behind);
    BlankCompletes(show, Read(show, r, TextOf(e.tree)).value, r.st.stack, Put(r.b, Valued(show, e.tree)), e.behind);
  }

  lemma EntriesParts(entries: seq<Entry>)
    requires entries != []
    ensures EntriesText(entries) == EntryText(entries[0]) + if |entries| == 1 then "" else "," + EntriesText(entries[1..])
    ensures |entries| == 1 ==> EntriesText(entries) == EntryText(entries[0])
    ensures EntriesGrammatical(entries) <==> EntryGrammatical(entries[0]) && (|entries| == 1 || EntriesGrammatical(entries[1..]))
  {
    hide EntryText, EntryGrammatical;
    assert |entries| == 1 ==> entries[1..] == [];
  }

  lemma {:induction false} EntriesRead(
    show: string -> string, r: Reader, stack: seq<Container>, b: Build, done: seq<Json>, entries: seq<Entry>)
    requires Starts(r.st) && r.st.stack == stack + [InArray] && r.b == Within(b, ArrayFrame(done))
    requires entries != [] && EntriesGrammatical(entries)
    ensures var e := Read(show, r, EntriesText(entries));
            && e.Some?
            && Complete(show, e.value, stack + [InArray], Within(b, ArrayFrame(done + Items(show, entries))))
    decreases entries, 1
  {
    hide Read, Put, Complete, EntryText, EntriesText, EntriesGrammatical, EntryGrammatical, Valued;
    EntriesParts(entries);
    var v := Valued(show, entries[0].tree);
    EntryReads(show, r, entries[0]);
    PutWithin(b, ArrayFrame(done), v);
    var first := Read(show, r, EntryText(entries[0])).value;
    if |entries| == 1 {
      assert Items(show, entries) == [v];
    } else {
      var next := Reader(State(Value, stack + [InArray]), Within(b, ArrayFrame(done + [v])));
      ReadAppend(show, r, EntryText(entries[0]), "," + EntriesText(entries[1..]));
      Comma(show, first, stack, InArray, next.b);
      ReadAppend(show, first, ",", EntriesText(entries[1..]));
      EntriesRead(show, next, stack, b, done + [v], entries[1..]);
      assert done + [v] + Items(show, entries[1..]) == done + Items(show, entries);
    }
  }

  lemma {:induction false} ListReads(show: string -> string, r: Reader, blank: string, entries: seq<Entry>)
    requires Starts(r.st) && Grammatical(List(blank, entries))
    ensures Read(show, r, TextOf(List(blank, entries)))
            == Some(Reader(State(After, r.st.stack), Put(r.b, Arr(Items(show, entries)))))
    decreases entries, 2
  {
    hide Read, Next, Put, Complete, EntryGrammatical, EntryText, Valued;
    var inside := Reader(State(ArrayFirst, r.st.stack + [InArray]), Within(r.b, ArrayFrame([])));
    var text := blank + EntriesText(entries);
    Opens(show, r, '[', inside);
    assert "[" == ['['] && "]" == [']'];
    ReadAppend(show, r, "[", text);
    ReadSnoc(show, r, "[" + text, ']');
    if entries == [] {
      assert text == blank;
      BlankReads(show, inside, blank);
      ClosesEmpty(show, inside, r.b, r.st.stack, ArrayFrame([]));
    } else {
      assert text == EntriesText(entries);
      EntriesRead(show, inside, r.st.stack, r.b, [], entries);
      assert [] + Items(show, entries) == Items(show, entries);
      Closes(show, Read(show, inside, text).value, r.b, r.st.stack, ArrayFrame(Items(show, entries)));
    }
  }

  lemma ColonReads(show: string -> string, r: Reader)
    requires r.st.mode.Colon?
    ensures Read(show, r, ":") == Some(r.(st := State(Value, r.st.stack)))
  {
    ReadOne(show, r, ':');
    assert [':'] == ":";
  }

  lemma {:induction false} PairReads(show: string -> string, r: Reader, b: Build, done: seq<Member>, p: Pairing)
    requires r.st.mode.ObjectFirst? || r.st.mode.ObjectKey?
    requires r.b == Within(b, ObjectFrame(done, "")) && PairGrammatical(p)
    ensures var q := Read(show, r, PairText(p));
            var m := Member(Unescaped(WrittenAll(p.key)), Valued(show, p.entry.tree));
            q.Some? && Complete(show, q.value, r.st.stack, Within(b, ObjectFrame(done + [m], "")))
    decreases p, 1
  {
    hide Read, Put, Complete, Valued, TextOf, EntryText, EntryGrammatical, Unescaped, WrittenAll, InQuotes;
    var key := Unescaped(WrittenAll(p.key));
    var colon := Reader(State(Colon, r.st.stack), Within(b, ObjectFrame(done, key)));
    var value := colon.(st := State(Value, r.st.stack));
    BlankReads(show, r, p.before);
    ReadAppend(show, r, p.before, InQuotes(p.key) + (p.middle + (":" + EntryText(p.entry))));
    QuotedReads(show, r, true, p.key);
    KeyedWithin(b, done, "", key);
    ReadAppend(show, r, InQuotes(p.key), p.middle + (":" + EntryText(p.entry)));
    BlankReads(show, colon, p.middle);
    ReadAppend(show, colon, p.middle, ":" + EntryText(p.entry));
    ColonReads(show, colon);
    ReadAppend(show, colon, ":", EntryText(p.entry));
    EntryReads(show, value, p.entry);
    PutWithin(b, ObjectFrame(done, key), Valued(show, p.entry.tree));
  }

  lemma PairsParts(pairs: seq<Pairing>)
    requires pairs != []
    ensures PairsText(pairs) == PairText(pairs[0]) + if |pairs| == 1 then "" else "," + PairsText(pairs[1..])
    ensures |pairs| == 1 ==> PairsText(pairs) == PairText(pairs[0])
    ensures PairsGrammatical(pairs) <==> PairGrammatical(pairs[0]) && (|pairs| == 1 || PairsGrammatical(pairs[1..]))
  {
    hide PairText, PairGrammatical;
    assert |pairs| == 1 ==> pairs[1..] == [];
  }

  lemma {:induction false} PairsRead(
    show: string -> string, r: Reader, stack: seq<Container>, b: Build, done: seq<Member>, pairs: seq<Pairing>)
    requires (r.st.mode.ObjectFirst? || r.st.mode.ObjectKey?) && r.st.stack == stack + [InObject]
    requires r.b == Within(b, ObjectFrame(done, "")) && pairs != [] && PairsGrammatical(pairs)
    ensures var e := Read(show, r, PairsText(pairs));
            && e.Some?
            && Complete(show, e.value, stack + [InObject], Within(b, ObjectFrame(done + Members(show, pairs), "")))
    decreases pairs, 1
  {
    hide Read, Put, Complete, PairText, PairsText, PairGrammatical, PairsGrammatical, Valued, Unescaped, WrittenAll;
    PairsParts(pairs);
    var m := Member(Unescaped(WrittenAll(pairs[0].key)), Valued(show, pairs[0].entry.tree));
    PairReads(show, r, b, done, pairs[0]);
    var first := Read(show, r, PairText(pairs[0])).value;
    if |pairs| == 1 {
      assert Members(show, pairs) == [m];
    } else {
      var next := Reader(State(ObjectKey, stack + [InObject]), Within(b, ObjectFrame(done + [m], "")));
      ReadAppend(show, r, PairText(pairs[0]), "," + PairsText(pairs[1..]));
      Comma(show, first, stack, InObject, next.b);
      ReadAppend(show, first, ",", PairsText(pairs[1..]));
      PairsRead(show, next, stack, b, done + [m], pairs[1..]);
      assert done + [m] + Members(show, pairs[1..]) == done + Members(show, pairs);
    }
  }

  lemma {:induction false} TableReads(show: string -> string, r: Reader, blank: string, pairs: seq<Pairing>)
    requires Starts(r.st) && Grammatical(Table(blank, pairs))
    ensures Read(show, r, TextOf(Table(blank, pairs)))
            == Some(Reader(State(After, r.st.stack), Put(r.b, Obj(Members(show, pairs)))))
    decreases pairs, 2
  {
    hide Read, Next, Put, Complete, PairGrammatical, PairText, Valued;
    var inside := Reader(State(ObjectFirst, r.st.stack + [InObject]), Within(r.b, ObjectFrame([], "")));
    var text := blank + PairsText(pairs);
    Opens(show, r, '{', inside);
    assert "{" == ['{'] && "}" == ['}'];
    ReadAppend(show, r, "{", text);
    ReadSnoc(show, r, "{" + text, '}');
    if pairs == [] {
      assert text == blank;
      BlankReads(show, inside, blank);
      ClosesEmpty(show, inside, r.b, r.st.stack, ObjectFrame([], ""));
    } else {
      assert text == PairsText(pairs);
      PairsRead(show, inside, r.st.stack, r.b, [], pairs);
      assert [] + Members(show, pairs) == Members(show, pairs);
      Closes(show, Read(show, inside, text).value, r.b, r.st.stack, ObjectFrame(Members(show, pairs), ""));
    }
  }

  // ----- every text is the text of a tree

  lemma AcceptsStep(st: State, s: string)
    requires AcceptsFrom(st, s) && s != ""
    ensures Step(st, s[0]).Some? && AcceptsFrom(Step(st, s[0]).value, s[1..])
  {
  }

  /** The blanks in front, outside tokens. */
  lemma {:induction false} SkipBlanks(st: State, s: string) returns (blank: string, rest: string)
    requires BetweenTokens(st) && AcceptsFrom(st, s)
    ensures s == blank + rest && Blank(blank) && AcceptsFrom(st, rest)
    ensures rest != "" ==> rest[0] !in WHITESPACE
    decreases |s|
  {
    hide AcceptsFrom;
    if s != "" && s[0] in WHITESPACE {
      AcceptsStep(st, s);
      assert Step(st, s[0]) == Some(st);
      var more;
      more, rest := SkipBlanks(st, s[1..]);
      blank := [s[0]] + more;
      assert s == [s[0]] + s[1..];
    } else {
      blank, rest := "", s;
    }
  }

  /** A string goes on to its closing quote. */
  lemma {:induction false} QuoteFrom(key: bool, p: TextPart, stack: seq<Container>, s: string)
    returns (raw: string, rest: string)
    requires AcceptsFrom(State(Text(key, p), stack), s)
    ensures s == raw + "\"" + rest && TextRun(p, raw) == Some(Plain)
    ensures AcceptsFrom(State(if key then Colon else After, stack), rest)
    decreases |s|
  {
    hide TextStep;
    if s == "" {
      assert false;
    } else if p.Plain? && s[0] == '"' {
      AcceptsStep(State(Text(key, p), stack), s);
      raw, rest := "", s[1..];
    } else {
      AcceptsStep(State(Text(key, p), stack), s);
      var more;
      more, rest := QuoteFrom(key, TextStep(p, s[0]).value, stack, s[1..]);
      raw := [s[0]] + more;
      assert raw[1..] == more && s == [s[0]] + s[1..];
    }
  }

  lemma {:induction false} WordFrom(word: string, stack: seq<Container>, s: string) returns (rest: string)
    requires AcceptsFrom(State(Literal(word), stack), s) && word != ""
    ensures s == word + rest && AcceptsFrom(State(After, stack), rest)
    decreases |s|
  {
    var st := State(Literal(word), stack);
    if s == "" {
      assert false;
    } else {
      AcceptsStep(st, s);
      if |word| == 1 {
        rest := s[1..];
      } else {
        rest := WordFrom(word[1..], stack, s[1..]);
      }
    }
  }

  /** The characters of a number run until one that is not its own; the value is complete there. */
  lemma {:induction false} NumberFrom(p: NumberPart, stack: seq<Container>, s: string) returns (more: string, rest: string)
    requires AcceptsFrom(State(Number(p), stack), s)
    ensures s == more + rest && NumberRun(p, more).Some? && NumberComplete(NumberRun(p, more).value)
    ensures AcceptsFrom(State(After, stack), rest)
    decreases |s|
  {
    hide NumberStep;
    if s == "" || NumberStep(p, s[0]).None? {
      more, rest := "", s;
    } else {
      AcceptsStep(State(Number(p), stack), s);
      var behind;
      behind, rest := NumberFrom(NumberStep(p, s[0]).value, stack, s[1..]);
      more := [s[0]] + behind;
      assert more[1..] == behind && s == [s[0]] + s[1..];
    }
  }

  predicate Completes(p: NumberPart, s: string) {
    NumberRun(p, s).Some? && NumberComplete(NumberRun(p, s).value)
  }

  lemma CompletesStep(p: NumberPart, s: string)
    requires Completes(p, s) && s != ""
    ensures NumberStep(p, s[0]).Some? && Completes(NumberStep(p, s[0]).value, s[1..])
  {
  }

  lemma DigitIs(c: char)
    ensures IsDigit(c) <==> c in DIGITS
  {
    if IsDigit(c) {
      assert c == DIGITS[c as int - '0' as int];
    }
  }

  /** The digits in front, and the part of the number behind them. */
  lemma {:induction false} DigitsFrom(p: NumberPart, s: string) returns (digits: string, rest: string)
    requires Digital(p) && Completes(p, s)
    ensures s == digits + rest && (digits == "" || Digits(digits)) && Completes(p, rest)
    ensures rest != "" ==> rest[0] !in DIGITS
    decreases |s|
  {
    hide Completes;
    if s != "" && s[0] in DIGITS {
      DigitIs(s[0]);
      CompletesStep(p, s);
      var more;
      more, rest := DigitsFrom(p, s[1..]);
      digits := [s[0]] + more;
      assert s == [s[0]] + s[1..];
    } else {
      digits, rest := "", s;
    }
  }

  lemma ExponentEnds(s: string)
    requires Completes(ExponentDigits, s) && (s != "" ==> s[0] !in DIGITS)
    ensures s == ""
  {
    if s != "" {
      DigitIs(s[0]);
    }
  }

  lemma ExponentFrom(p: NumberPart, s: string)
    requires (p.Zero? || p.Integer? || p.Fraction?) && Completes(p, s)
    requires s != "" ==> s[0] !in DIGITS && s[0] != '.'
    ensures IsExponent(s)
  {
    hide Completes;
    if s != "" {
      CompletesStep(p, s);
      DigitIs(s[0]);
      ExponentBody(s[1..]);
      assert s[1..][1..] == s[2..];
    }
  }

  lemma ExponentBody(s: string)
    requires Completes(Exponent, s)
    ensures s != "" && Digits(if s[0] in "+-" then s[1..] else s)
  {
    hide Completes;
    ExponentOpen(Exponent, s);
    CompletesStep(Exponent, s);
    var q := NumberStep(Exponent, s[0]).value;
    if s[0] in "+-" {
      ExponentOpen(q, s[1..]);
      ExponentDigit(q, s[1..]);
    } else {
      ExponentDigit(Exponent, s);
    }
  }

  lemma ExponentOpen(p: NumberPart, s: string)
    requires !NumberComplete(p) && Completes(p, s)
    ensures s != ""
  {
  }

  /** A digit leads to the last part of an exponent, which is digits only. */
  lemma ExponentDigit(p: NumberPart, s: string)
    requires (p.Exponent? || p.ExponentSign?) && Completes(p, s) && s != ""
    requires p.Exponent? ==> s[0] !in "+-"
    ensures Digits(s)
  {
    hide Completes;
    CompletesStep(p, s);
    DigitIs(s[0]);
    var digits, rest := DigitsFrom(ExponentDigits, s[1..]);
    ExponentEnds(rest);
    assert s == [s[0]] + digits;
  }

  /** The digits behind the point, and the exponent behind them. */
  lemma FractionFrom(s: string) returns (digits: string, exponent: string)
    requires Completes(Point, s)
    ensures s == digits + exponent && Digits(digits) && IsExponent(exponent)
  {
    hide Completes, IsExponent;
    ExponentOpen(Point, s);
    CompletesStep(Point, s);
    DigitIs(s[0]);
    var more;
    more, exponent := DigitsFrom(Fraction, s[1..]);
    PointGone(exponent);
    ExponentFrom(Fraction, exponent);
    digits := [s[0]] + more;
    assert s == [s[0]] + s[1..];
  }

  /** A fraction and an exponent behind the whole part. */
  lemma PartsFrom(p: NumberPart, s: string) returns (fraction: string, exponent: string)
    requires (p.Zero? || p.Integer?) && Completes(p, s) && (s != "" ==> s[0] !in DIGITS)
    ensures s == fraction + exponent && IsFraction(fraction) && IsExponent(exponent)
  {
    hide Completes, IsExponent;
    if s != "" && s[0] == '.' {
      CompletesStep(p, s);
      var digits;
      digits, exponent := FractionFrom(s[1..]);
      fraction := "." + digits;
      assert fraction[1..] == digits;
      assert s == [s[0]] + s[1..];
    } else {
      ExponentFrom(p, s);
      fraction, exponent := "", s;
    }
  }

  lemma PointGone(s: string)
    requires Completes(Fraction, s)
    ensures s != "" ==> s[0] != '.'
  {
  }

  lemma ZeroEnds(s: string)
    requires Completes(Zero, s)
    ensures s != "" ==> s[0] !in DIGITS
  {
    if s != "" {
      DigitIs(s[0]);
    }
  }

  lemma WholeOf(c: char, digits: string)
    requires c in DIGITS && (if c == '0' then digits == "" else digits == "" || Digits(digits))
    ensures IsWhole([c] + digits)
  {
    if c != '0' {
      var s := [c] + digits;
      assert forall i :: 1 <= i < |s| ==> s[i] == digits[i - 1];
    }
  }

  /** The whole part from its first digit. */
  lemma WholeFrom(p: NumberPart, c: char, s: string) returns (t: Tree)
    requires c in DIGITS && p == (if c == '0' then Zero else Integer) && Completes(p, s)
    ensures Grammatical(t) && t.Numeral? && t.sign == "" && TextOf(t) == [c] + s
  {
    hide Completes, Digits, IsWhole, IsFraction, IsExponent;
    var digits, rest := "", s;
    if c == '0' {
      ZeroEnds(s);
    } else {
      digits, rest := DigitsFrom(p, s);
    }
    WholeOf(c, digits);
    var fraction, exponent := PartsFrom(p, rest);
    t := Numeral("", [c] + digits, fraction, exponent);
    assert "" + ([c] + digits) + fraction + exponent == [c] + (digits + (fraction + exponent));
  }

  lemma MinusNext(s: string) returns (p: NumberPart)
    requires Completes(Minus, s)
    ensures s != "" && s[0] in DIGITS && p == (if s[0] == '0' then Zero else Integer) && Completes(p, s[1..])
  {
    DigitIs(s[0]);
    p := NumberStep(Minus, s[0]).value;
  }

  lemma NumeralFrom(p: NumberPart, c: char, s: string) returns (t: Tree)
    requires StartValue(START, c) == Some(State(Number(p), [])) && Completes(p, s)
    ensures Grammatical(t) && TextOf(t) == [c] + s
  {
    hide Completes, IsWhole, IsFraction, IsExponent;
    if c == '-' {
      var q := MinusNext(s);
      var u := WholeFrom(q, s[0], s[1..]);
      t := u.(sign := "-");
      assert "-" + u.whole + u.fraction + u.exponent == "-" + ("" + u.whole + u.fraction + u.exponent);
      assert s == [s[0]] + s[1..];
    } else {
      DigitIs(c);
      t := WholeFrom(p, c, s);
    }
  }

  lemma OpenNotAccepting(st: State, s: string)
    requires AcceptsFrom(st, s) && BetweenTokens(st) && (!st.mode.After? || st.stack != [])
    ensures s != ""
  {
  }

  /** Blanks in front of a character that the machine reads. */
  lemma FirstSolid(st: State, s: string) returns (blank: string, rest: string)
    requires BetweenTokens(st) && AcceptsFrom(st, s) && (!st.mode.After? || st.stack != [])
    ensures s == blank + rest && Blank(blank) && AcceptsFrom(st, rest)
    ensures rest != "" && rest[0] !in WHITESPACE && Step(st, rest[0]).Some?
    ensures AcceptsFrom(Step(st, rest[0]).value, rest[1..]) && rest == [rest[0]] + rest[1..]
  {
    hide AcceptsFrom, Blank, Step;
    blank, rest := SkipBlanks(st, s);
    OpenNotAccepting(st, rest);
    AcceptsStep(st, rest);
  }

  lemma AfterStep(stack: seq<Container>, top: Container, c: char)
    requires Step(State(After, stack + [top]), c).Some? && c !in WHITESPACE
    ensures var next := Step(State(After, stack + [top]), c).value;
            if c == ',' then next == State(if top.InArray? then Value else ObjectKey, stack + [top])
            else c == (if top.InArray? then ']' else '}') && next == State(After, stack)
  {
    assert Pop(stack + [top]) == stack;
  }

  lemma FirstStep(stack: seq<Container>, top: Container, c: char)
    requires var st := State(if top.InArray? then ArrayFirst else ObjectFirst, stack + [top]);
             Step(st, c).Some? && c == if top.InArray? then ']' else '}'
    ensures Step(State(if top.InArray? then ArrayFirst else ObjectFirst, stack + [top]), c) == Some(State(After, stack))
  {
    assert Pop(stack + [top]) == stack;
  }

  lemma ValueStep(st: State, c: char)
    requires Starts(st) && c !in WHITESPACE && !(st.mode.ArrayFirst? && c == ']')
    ensures Step(st, c) == StartValue(st, c)
  {
  }

  lemma KeyStep(st: State, c: char)
    requires (st.mode.ObjectFirst? || st.mode.ObjectKey?) && Step(st, c).Some? && c !in WHITESPACE && c != '}'
    ensures c == '"' && Step(st, c).value == State(Text(true, Plain), st.stack)
  {
  }

  lemma ColonStep(st: State, c: char)
    requires st.mode.Colon? && Step(st, c).Some? && c !in WHITESPACE
    ensures c == ':' && Step(st, c).value == State(Value, st.stack)
  {
  }

  lemma ScalarStarts(st: State, c: char)
    requires StartValue(st, c).Some? && c !in "[{\""
    ensures var next := StartValue(st, c).value;
            && next.stack == st.stack
            && (c == 't' ==> next.mode == Literal("rue")) && (c == 'f' ==> next.mode == Literal("alse"))
            && (c == 'n' ==> next.mode == Literal("ull"))
            && (c !in "tfn" ==> next.mode.Number? && StartValue(START, c) == Some(State(next.mode, [])))
  {
  }

  lemma ScalarFrom(st: State, s: string) returns (t: Tree, rest: string)
    requires s != "" && s[0] !in "[{\"" && StartValue(st, s[0]).Some? && AcceptsFrom(StartValue(st, s[0]).value, s[1..])
    ensures Grammatical(t) && TextOf(t) != "" && s == TextOf(t) + rest && AcceptsFrom(State(After, st.stack), rest)
  {
    hide AcceptsFrom, StartValue;
    ScalarStarts(st, s[0]);
    var next := StartValue(st, s[0]).value;
    assert s == [s[0]] + s[1..];
    if s[0] in "tfn" {
      rest := WordFrom(next.mode.rest, st.stack, s[1..]);
      t := Word([s[0]] + next.mode.rest);
    } else {
      var more;
      more, rest := NumberFrom(next.mode.number, st.stack, s[1..]);
      t := NumeralFrom(next.mode.number, s[0], more);
    }
  }

  lemma QuotedFrom(key: bool, stack: seq<Container>, s: string) returns (units: seq<Unit>, rest: string)
    requires s != "" && s[0] == '"' && AcceptsFrom(State(Text(key, Plain), stack), s[1..])
    ensures AllWellFormed(units) && s == InQuotes(units) + rest && AcceptsFrom(State(if key then Colon else After, stack), rest)
  {
    hide AcceptsFrom, AllWellFormed, WrittenAll;
    var raw;
    raw, rest := QuoteFrom(key, Plain, stack, s[1..]);
    units := UnitsOf(raw);
    assert s == [s[0]] + s[1..];
    assert "\"" + raw + "\"" + rest == "\"" + (raw + "\"" + rest);
  }

  /** The tree of the value that starts here. */
  lemma {:induction false} TreeFrom(st: State, s: string) returns (t: Tree, rest: string)
    requires Starts(st) && AcceptsFrom(st, s)
    requires s != "" ==> s[0] !in WHITESPACE && !(st.mode.ArrayFirst? && s[0] == ']')
    ensures Grammatical(t) && s == TextOf(t) + rest && |rest| < |s| && AcceptsFrom(State(After, st.stack), rest)
    decreases |s|, 0
  {
    hide AcceptsFrom, AllWellFormed, WrittenAll;
    OpenNotAccepting(st, s);
    AcceptsStep(st, s);
    ValueStep(st, s[0]);
    if s[0] == '"' {
      var units;
      units, rest := QuotedFrom(false, st.stack, s);
      t := Quoted(units);
    } else if s[0] == '[' {
      t, rest := ListFrom(st.stack, s[1..]);
      assert s == "[" + s[1..];
    } else if s[0] == '{' {
      t, rest := TableFrom(st.stack, s[1..]);
      assert s == "{" + s[1..];
    } else {
      t, rest := ScalarFrom(st, s);
    }
  }

  lemma {:induction false} ListFrom(stack: seq<Container>, s: string) returns (t: Tree, rest: string)
    requires AcceptsFrom(State(ArrayFirst, stack + [InArray]), s)
    ensures Grammatical(t) && "[" + s == TextOf(t) + rest && |rest| < |s| && AcceptsFrom(State(After, stack), rest)
    decreases |s|, 2
  {
    hide AcceptsFrom, Blank, EntriesGrammatical, EntriesText, Grammatical, Step, TextOf;
    var st := State(ArrayFirst, stack + [InArray]);
    var blank, more := FirstSolid(st, s);
    if more[0] == ']' {
      FirstStep(stack, InArray, ']');
      t, rest := List(blank, []), more[1..];
      EmptyList(blank, rest);
    } else {
      var entries;
      entries, rest := EntriesFrom(st, stack, blank, more);
      t := List("", entries);
      FullList(entries, rest);
    }
  }

  lemma Bracketed(open: string, body: string, close: string, rest: string)
    ensures open + ("" + body) + close + rest == open + (body + close + rest)
  {
  }

  lemma EmptyList(blank: string, rest: string)
    ensures TextOf(List(blank, [])) + rest == "[" + (blank + ([']'] + rest))
    ensures Blank(blank) ==> Grammatical(List(blank, []))
  {
  }

  lemma FullList(entries: seq<Entry>, rest: string)
    requires entries != [] && EntriesGrammatical(entries)
    ensures TextOf(List("", entries)) + rest == "[" + (EntriesText(entries) + "]" + rest)
    ensures Grammatical(List("", entries))
  {
    hide EntriesText, EntriesGrammatical;
    Bracketed("[", EntriesText(entries), "]", rest);
  }

  lemma {:induction false} EntriesFrom(st: State, stack: seq<Container>, before: string, s: string)
    returns (entries: seq<Entry>, rest: string)
    requires Starts(st) && st.stack == stack + [InArray] && AcceptsFrom(st, s) && Blank(before)
    requires s != "" ==> s[0] !in WHITESPACE && !(st.mode.ArrayFirst? && s[0] == ']')
    ensures entries != [] && EntriesGrammatical(entries) && before + s == EntriesText(entries) + "]" + rest
    ensures |rest| < |s| && AcceptsFrom(State(After, stack), rest)
    decreases |s|, 1
  {
    hide AcceptsFrom, Blank, EntriesGrammatical, EntriesText, EntryText, Grammatical, Step, TextOf;
    var t, r := TreeFrom(st, s);
    var behind, more := FirstSolid(State(After, st.stack), r);
    AfterStep(stack, InArray, more[0]);
    var e := Entry(before, t, behind);
    EntryParts(e);
    if more[0] == ']' {
      entries, rest := [e], more[1..];
      EntriesParts(entries);
    } else {
      var next := State(Value, st.stack);
      var front, s' := SkipBlanks(next, more[1..]);
      var others;
      others, rest := EntriesFrom(next, stack, front, s');
      entries := [e] + others;
      assert entries[1..] == others;
      EntriesParts(entries);
    }
  }

  lemma EntryParts(e: Entry)
    ensures EntryText(e) == e.before + (TextOf(e.tree) + e.behind)
  {
  }

  lemma {:induction false} TableFrom(stack: seq<Container>, s: string) returns (t: Tree, rest: string)
    requires AcceptsFrom(State(ObjectFirst, stack + [InObject]), s)
    ensures Grammatical(t) && "{" + s == TextOf(t) + rest && |rest| < |s| && AcceptsFrom(State(After, stack), rest)
    decreases |s|, 3
  {
    hide AcceptsFrom, Blank, PairsGrammatical, PairsText, Grammatical, Step, TextOf;
    var st := State(ObjectFirst, stack + [InObject]);
    var blank, more := FirstSolid(st, s);
    if more[0] == '}' {
      FirstStep(stack, InObject, '}');
      t, rest := Table(blank, []), more[1..];
      EmptyTable(blank, rest);
    } else {
      var pairs;
      pairs, rest := PairsFrom(st, stack, blank, more);
      t := Table("", pairs);
      FullTable(pairs, rest);
    }
  }

  lemma EmptyTable(blank: string, rest: string)
    ensures TextOf(Table(blank, [])) + rest == "{" + (blank + (['}'] + rest))
    ensures Blank(blank) ==> Grammatical(Table(blank, []))
  {
  }

  lemma FullTable(pairs: seq<Pairing>, rest: string)
    requires pairs != [] && PairsGrammatical(pairs)
    ensures TextOf(Table("", pairs)) + rest == "{" + (PairsText(pairs) + "}" + rest)
    ensures Grammatical(Table("", pairs))
  {
    hide PairsText, PairsGrammatical;
    Bracketed("{", PairsText(pairs), "}", rest);
  }

  /** A member's key, colon and value. */
  lemma {:induction false} PairFrom(st: State, before: string, s: string) returns (p: Pairing, rest: string)
    requires (st.mode.ObjectFirst? || st.mode.ObjectKey?) && st.stack != [] && AcceptsFrom(st, s) && Blank(before)
    requires s != "" ==> s[0] !in WHITESPACE && s[0] != '}'
    ensures PairGrammatical(p) && before + s == PairText(p) + rest && |rest| < |s|
    ensures AcceptsFrom(State(After, st.stack), rest) && (rest != "" ==> rest[0] !in WHITESPACE)
    decreases |s|, 1
  {
    hide AcceptsFrom, AllWellFormed, Blank, EntryText, Grammatical, InQuotes, Step, TextOf;
    var colon, value, after := State(Colon, st.stack), State(Value, st.stack), State(After, st.stack);
    OpenNotAccepting(st, s);
    AcceptsStep(st, s);
    KeyStep(st, s[0]);
    var key, r := QuotedFrom(true, st.stack, s);
    var middle, r1 := FirstSolid(colon, r);
    ColonStep(colon, r1[0]);
    var front, r2 := SkipBlanks(value, r1[1..]);
    var t, r3 := TreeFrom(value, r2);
    var behind;
    behind, rest := SkipBlanks(after, r3);
    var e := Entry(front, t, behind);
    EntryParts(e);
    p := Pairing(before, key, middle, e);
    assert PairText(p) + rest == before + (InQuotes(key) + (middle + (":" + (EntryText(e) + rest))));
    assert EntryText(e) + rest == front + (TextOf(t) + (behind + rest));
  }

  lemma {:induction false} PairsFrom(st: State, stack: seq<Container>, before: string, s: string)
    returns (pairs: seq<Pairing>, rest: string)
    requires (st.mode.ObjectFirst? || st.mode.ObjectKey?) && st.stack == stack + [InObject]
    requires AcceptsFrom(st, s) && Blank(before) && (s != "" ==> s[0] !in WHITESPACE && s[0] != '}')
    ensures pairs != [] && PairsGrammatical(pairs) && before + s == PairsText(pairs) + "}" + rest
    ensures |rest| < |s| && AcceptsFrom(State(After, stack), rest)
    decreases |s|, 2
  {
    hide AcceptsFrom, Blank, PairText, PairsText, PairGrammatical, PairsGrammatical, Step;
    var p, more := PairFrom(st, before, s);
    OpenNotAccepting(State(After, st.stack), more);
    AcceptsStep(State(After, st.stack), more);
    AfterStep(stack, InObject, more[0]);
    assert more == [more[0]] + more[1..];
    if more[0] == '}' {
      pairs, rest := [p], more[1..];
      PairsParts(pairs);
    } else {
      var next := State(ObjectKey, st.stack);
      var front, s' := SkipBlanks(next, more[1..]);
      KeyNotClosing(next, s');
      var others;
      others, rest := PairsFrom(next, stack, front, s');
      pairs := [p] + others;
      assert pairs[1..] == others;
      PairsParts(pairs);
    }
  }

  lemma KeyNotClosing(st: State, s: string)
    requires st.mode.ObjectKey? && AcceptsFrom(st, s)
    ensures s != "" ==> s[0] != '}'
  {
  }

  // ----- the machine and the grammar

  /** The text is a value with blanks around it. */
  ghost predicate IsJson(s: string) {
    exists e :: EntryGrammatical(e) && EntryText(e) == s
  }

  /** The machine accepts what the grammar allows, and nothing else. */
  lemma MachineIsGrammar(s: string)
    ensures Accepts(s) <==> IsJson(s)
  {
    hide AcceptsFrom, EntryGrammatical, EntryText;
    if Accepts(s) {
      var e := EntryOf(s);
      assert EntryText(e) == s;
    }
    if IsJson(s) {
      var e :| EntryGrammatical(e) && EntryText(e) == s;
      EntryAccepted(s => s, e);
    }
  }

  lemma EntryOf(s: string) returns (e: Entry)
    requires Accepts(s)
    ensures EntryGrammatical(e) && EntryText(e) == s
  {
    hide AcceptsFrom, Blank, Grammatical, TextOf;
    var before, s' := SkipBlanks(START, s);
    var t, rest := TreeFrom(START, s');
    var behind, end := SkipBlanks(State(After, []), rest);
    NothingBehind(end);
    e := Entry(before, t, behind);
  }

  lemma NothingBehind(s: string)
    requires AcceptsFrom(State(After, []), s) && (s != "" ==> s[0] !in WHITESPACE)
    ensures s == ""
  {
  }

  lemma EntryAccepted(show: string -> string, e: Entry)
    requires EntryGrammatical(e)
    ensures Accepts(EntryText(e)) && ValueOf(show, EntryText(e)) == Valued(show, e.tree)
  {
    hide Read, Run, EntryText, Valued;
    EntryReads(show, BEGIN, e);
    ReadState(show, BEGIN, EntryText(e));
  }

  /** The value read from a tree's text, with any blanks around it, is what the tree denotes. */
  lemma ValueIsMeant(show: string -> string, e: Entry)
    requires EntryGrammatical(e)
    ensures Accepts(EntryText(e)) && Denotes(show, e.tree, ValueOf(show, EntryText(e)))
  {
    hide Accepts, Denotes, EntryText, Grammatical, ValueOf;
    EntryAccepted(show, e);
    ValuedDenotes(show, e.tree);
  }

  lemma {:induction false} ValuedDenotes(show: string -> string, t: Tree)
    requires Grammatical(t)
    ensures Denotes(show, t, Valued(show, t))
    decreases t, 0
  {
    hide Decode, Unescaped, WrittenAll, TextOf;
    match t
    case Word(_) =>
    case Numeral(_, _, _, _) =>
    case Quoted(units) => StringMeans(units);
    case List(_, entries) => ItemsDenote(show, entries);
    case Table(_, pairs) => MembersDenote(show, pairs);
  }

  lemma {:induction false} ItemsDenote(show: string -> string, entries: seq<Entry>)
    requires EntriesGrammatical(entries)
    ensures EntriesDenote(show, entries, Items(show, entries))
    decreases entries, 1
  {
    hide Denotes, Valued;
    if entries != [] {
      ValuedDenotes(show, entries[0].tree);
      ItemsDenote(show, entries[1..]);
      assert Items(show, entries)[1..] == Items(show, entries[1..]);
    }
  }

  lemma {:induction false} MembersDenote(show: string -> string, pairs: seq<Pairing>)
    requires PairsGrammatical(pairs)
    ensures PairsDenote(show, pairs, Members(show, pairs))
    decreases pairs, 1
  {
    hide Denotes, Valued, Decode, Unescaped, WrittenAll;
    if pairs != [] {
      assert PairGrammatical(pairs[0]) && EntryGrammatical(pairs[0].entry);
      StringMeans(pairs[0].key);
      ValuedDenotes(show, pairs[0].entry.tree);
      MembersDenote(show, pairs[1..]);
      assert Members(show, pairs)[1..] == Members(show, pairs[1..]);
    }
  }

  /** A tree denotes one value. */
  lemma {:induction false} DenotesOne(show: string -> string, t: Tree, i: Json, j: Json)
    requires Denotes(show, t, i) && Denotes(show, t, j)
    ensures i == j
    decreases t, 0
  {
    hide Decode, TextOf;
    match t
    case Word(_) =>
    case Numeral(_, _, _, _) =>
    case Quoted(_) => DecodeInjective(i.s, j.s);
    case List(_, entries) => ItemsOne(show, entries, i.items, j.items);
    case Table(_, pairs) => MembersOne(show, pairs, i.members, j.members);
  }

  lemma {:induction false} ItemsOne(show: string -> string, entries: seq<Entry>, xs: seq<Json>, ys: seq<Json>)
    requires EntriesDenote(show, entries, xs) && EntriesDenote(show, entries, ys)
    ensures xs == ys
    decreases entries, 1
  {
    hide Denotes;
    if entries != [] {
      DenotesOne(show, entries[0].tree, xs[0], ys[0]);
      ItemsOne(show, entries[1..], xs[1..], ys[1..]);
      assert xs == [xs[0]] + xs[1..] && ys == [ys[0]] + ys[1..];
    }
  }

  lemma {:induction false} MembersOne(show: string -> string, pairs: seq<Pairing>, ms: seq<Member>, ns: seq<Member>)
    requires PairsDenote(show, pairs, ms) && PairsDenote(show, pairs, ns)
    ensures ms == ns
    decreases pairs, 1
  {
    hide Denotes, Decode;
    if pairs != [] {
      DecodeInjective(ms[0].key, ns[0].key);
      DenotesOne(show, pairs[0].entry.tree, ms[0].value, ns[0].value);
      MembersOne(show, pairs[1..], ms[1..], ns[1..]);
      assert ms[0] == ns[0] && ms == [ms[0]] + ms[1..] && ns == [ns[0]] + ns[1..];
    }
  }

  // ----- every string that is read is UTF-8

  predicate AllUtf8(j: Json)
    decreases j, 0
  {
    match j
    case Str(s) => Decode(s).Some?
    case Arr(items) => forall i :: 0 <= i < |items| ==> AllUtf8(items[i])
    case Obj(members) => forall i :: 0 <= i < |members| ==> Decode(members[i].key).Some? && AllUtf8(members[i].value)
    case _ => true
  }

  lemma {:induction false} DenotedUtf8(show: string -> string, t: Tree, j: Json)
    requires Denotes(show, t, j)
    ensures AllUtf8(j)
    decreases t, 0
  {
    hide Decode, TextOf;
    match t
    case Word(_) =>
    case Numeral(_, _, _, _) =>
    case Quoted(_) =>
    case List(_, entries) => ItemsUtf8(show, entries, j.items);
    case Table(_, pairs) => MembersUtf8(show, pairs, j.members);
  }

  lemma {:induction false} ItemsUtf8(show: string -> string, entries: seq<Entry>, items: seq<Json>)
    requires EntriesDenote(show, entries, items)
    ensures forall i :: 0 <= i < |items| ==> AllUtf8(items[i])
    decreases entries, 1
  {
    hide Denotes, AllUtf8;
    if entries != [] {
      DenotedUtf8(show, entries[0].tree, items[0]);
      ItemsUtf8(show, entries[1..], items[1..]);
      assert items == [items[0]] + items[1..];
    }
  }

  lemma {:induction false} MembersUtf8(show: string -> string, pairs: seq<Pairing>, ms: seq<Member>)
    requires PairsDenote(show, pairs, ms)
    ensures forall i :: 0 <= i < |ms| ==> Decode(ms[i].key).Some? && AllUtf8(ms[i].value)
    decreases pairs, 1
  {
    hide Denotes, AllUtf8, Decode;
    if pairs != [] {
      DenotedUtf8(show, pairs[0].entry.tree, ms[0].value);
      MembersUtf8(show, pairs[1..], ms[1..]);
      assert ms == [ms[0]] + ms[1..];
    }
  }

  /** All keys and strings of the value of a JSON text are UTF-8. */
  lemma ValueIsUtf8(show: string -> string, s: string)
    requires Accepts(s)
    ensures AllUtf8(ValueOf(show, s))
  {
    hide Accepts, AllUtf8, Denotes, EntryGrammatical, EntryText, ValueOf;
    var e := EntryOf(s);
    ValueIsMeant(show, e);
    DenotedUtf8(show, e.tree, ValueOf(show, s));
  }
}

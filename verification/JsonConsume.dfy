/**
 try_consume_json_with_dumped_args (common/chat-parser.cpp), from the text to the cleaned value: what
 JsonHealedValues derives of a healed text meets what JsonCleaning asks for.
 */
module JsonConsume {
  import opened Base
  import opened JsonMachine
  import opened JsonErrorLocator
  import opened JsonHealing
  import opened JsonParse
  import opened JsonDump
  import opened JsonPartialResults
  import opened JsonCleaning
  import opened JsonValues
  import opened JsonHealedValues
  import opened JsonPartialValues
  import opened JsonUnmarked
  import opened JsonStops

  datatype Consumption =
    | NoJson                                          // returns nothing
    | Throws
    | Incomplete                                      // throws: a healed value in a reply that is not partial
    | Consumed(value: Json, isPartial: bool, end: nat)

  function Settings(marker: string, isPartial: bool, healing: Option<Healing>, paths: Paths): Setting {
    match healing
    case Some(Healed(_, dumpMarker, _, _)) => Setting(marker, marker, dumpMarker, isPartial, paths)
    case _ => Setting(marker, "", "", isPartial, paths)
  }

  function Delivered(c: Setting, j: Json, end: nat): Consumption {
    if c.healed == "" && c.paths.args == [] then Consumed(j, false, end)
    else if c.healed == "" && [] in c.paths.args then Consumed(Str(Dump(j)), false, end)
    else match Clean(c, j, [], false)
      case Thrown => Throws
      case Cleaned(v, _, found) => Consumed(v, found, end)
  }

  /** What is made of the input at the cursor. */
  function Outcomes(
    show: string -> string, input: string, marker: string, isPartial: bool, paths: Paths): Consumption
  {
    ParsedIsSound(input, marker);
    match Parsed(input, marker)
    case Refused => NoJson
    case Raised => Throws
    case Whole(text, at) => Delivered(Settings(marker, isPartial, None, paths), ValueOf(show, text), at)
    case Partial(healing, at, _) =>
      if !isPartial then Incomplete
      else Delivered(Settings(marker, isPartial, Some(healing), paths), ValueOf(show, healing.text), at)
  }

  method TryConsumeJsonWithDumpedArgs(
    show: string -> string, input: string, marker: string, isPartial: bool, paths: Paths)
    returns (out: Consumption)
    ensures out == Outcomes(show, input, marker, isPartial, paths)
  {
    hide Accepts, Clean, Dump, ValueOf, Parsed;
    ParsedIsSound(input, marker);
    var parsed := CommonJsonParse(input, marker);
    match parsed {
      case Refused => return NoJson;
      case Raised => return Throws;
      case Whole(text, at) =>
        var setting := Settings(marker, isPartial, None, paths);
        out := Deliver(setting, ValueOf(show, text), at);
      case Partial(healing, at, _) =>
        if !isPartial {
          return Incomplete;
        }
        var setting := Settings(marker, isPartial, Some(healing), paths);
        out := Deliver(setting, ValueOf(show, healing.text), at);
    }
  }

  method Deliver(setting: Setting, j: Json, end: nat) returns (out: Consumption)
    ensures out == Delivered(setting, j, end)
  {
    hide Clean, Dump;
    var r := ConsumeJsonWithDumpedArgs(setting, j);
    match r {
      case None => return Throws;
      case Some((v, found)) => return Consumed(v, found, end);
    }
  }

  /** What stands before the marker in the dump marker. */
  function LeadOf(healing: Healing, marker: string): string
    requires healing.Healed? && |marker| <= |healing.dumpMarker|
  {
    healing.dumpMarker[..|healing.dumpMarker| - |marker|]
  }

  lemma CutHasLead(str: string, marker: string, healing: Healing)
    requires healing.Healed? && WellCut(str, marker, healing)
    ensures |marker| <= |healing.dumpMarker|
    ensures IsLead(LeadOf(healing, marker)) && healing.dumpMarker == LeadOf(healing, marker) + marker
  {
    var dump := healing.dumpMarker;
    var lead :| lead in ["", "\"", ":\"", ",\"", "\\"] && dump == lead + marker by {
      assert "" + marker == marker;
      if dump == marker {
        assert dump == "" + marker;
      }
    }
    assert dump[..|dump| - |marker|] == lead;
  }

  lemma SomethingOpen(input: string, marker: string)
    requires Parsed(input, marker).Partial?
    ensures Containers(FinalElements(input)) != []
  {
    hide Accepts, Completed, ErrorPosition, LiveLength, StateOf;
    var st := Settle(StateOf(input[..LiveLength(START, input)]));
    ContainersOfElements(st.stack, KeyOpen(st.mode));
  }

  // ----- a reply that was healed

  /**
   A healed input, with a fresh marker and without \u escapes: in its value the marker is in a key or
   string, and in the dump the lead stands before it.
   */
  lemma PartialIsHealed(show: string -> string, input: string, marker: string)
    requires Parsed(input, marker).Partial? && Accepts(Parsed(input, marker).healing.text)
    requires Fresh(show, input, marker) && OneQuiet(show, marker)
    ensures var healing := Parsed(input, marker).healing;
            var j := ValueOf(show, healing.text);
            && healing.Healed? && |marker| <= |healing.dumpMarker|
            && var lead := LeadOf(healing, marker);
               && IsLead(lead) && healing.dumpMarker == lead + marker && (j.Obj? || j.Arr?)
               && HasMarker(j, marker) && Faithful(j, marker) && Led(Dump(j), lead, marker)
  {
    hide Accepts, Contains, DigitMarker, NoUnicodeEscapes, Quiet, ValueOf, FinalElements, Containers, Closing,
      HasMarker, Faithful, Led, Dump, IsLead, OneQuiet;
    PartialParts(show, input, marker);
    var healing, wanted := Parsed(input, marker).healing, Containers(FinalElements(input));
    HealedText(show, input[..healing.kept], LeadOf(healing, marker), marker, healing.tail, wanted);
  }

  lemma CutParts(str: string, marker: string, healing: Healing, wanted: seq<Container>)
    requires healing.Healed? && WellCut(str, marker, healing) && Tailed(Closing(wanted), healing)
    ensures healing.kept <= |str| && healing.text == str[..healing.kept] + healing.dumpMarker + healing.tail
    ensures TailOf(healing.tail, wanted)
  {
  }

  /** The parts of a healed input. */
  lemma PartialParts(show: string -> string, input: string, marker: string)
    requires Parsed(input, marker).Partial? && Fresh(show, input, marker)
    ensures var out := Parsed(input, marker);
            var healing, wanted := out.healing, Containers(FinalElements(input));
            && Accepts(healing.text) && healing.Healed? && |marker| <= |healing.dumpMarker|
            && out.consumed <= |input| && healing.kept <= out.consumed
            && var lead, q := LeadOf(healing, marker), input[..healing.kept];
               && IsLead(lead) && healing.dumpMarker == lead + marker && healing.text == q + (lead + marker) + healing.tail
               && wanted != [] && TailOf(healing.tail, wanted) && Fresh(show, q, marker)
  {
    hide Accepts, Fresh, FinalElements, Containers, Closing, IsLead, LeadOf, Parsed, Tailed, TailOf, WellCut;
    var out := Parsed(input, marker);
    ParsedIsSound(input, marker);
    var str := input[..out.consumed];
    SomethingOpen(input, marker);
    CutHasLead(str, marker, out.healing);
    CutParts(str, marker, out.healing, Containers(FinalElements(input)));
    assert str[..out.healing.kept] == input[..out.healing.kept];
    FreshPrefix(show, input, marker, out.healing.kept);
  }

  lemma SettingHealed(c: Setting, lead: string, healing: Healing, marker: string, paths: Paths)
    requires healing.Healed? && DigitMarker(marker) && IsLead(lead) && healing.dumpMarker == lead + marker
    requires c == Settings(marker, true, Some(healing), paths)
    ensures JsonCleaning.Healed(c, lead) && c.healed != "" && c.marker == marker
  {
  }

  /**
   A healed reply is delivered as what is complete in it, with its arguments dumped as far as they
   go, and as partial; or it throws, exactly where something that is no string has been met at a
   content path. The marker is in no key, string or dumped arguments of it.
   */
  lemma PartialIsCleaned(show: string -> string, input: string, marker: string, paths: Paths)
    requires Parsed(input, marker).Partial? && Fresh(show, input, marker)
    ensures var out := Parsed(input, marker);
            && out.healing.Healed? && |marker| <= |out.healing.dumpMarker| && out.healing.kept <= out.consumed <= |input|
            && var q, lead := input[..out.healing.kept], LeadOf(out.healing, marker);
               && Live(q + lead) && InString(ReaderOf(show, q + lead))
               && Outcomes(show, input, marker, true, paths)
                  == match DeliveredOf(show, paths, marker, q, lead)
                     case None => Throws
                     case Some(v) => Consumed(v, true, out.consumed)
    ensures var out := Outcomes(show, input, marker, true, paths);
            out.Consumed? ==> !HasMarker(out.value, marker)
    ensures Outcomes(show, input, marker, false, paths) == Incomplete
  {
    hide Accepts, Clean, Closing, Contains, Containers, DeliveredOf, FinalElements, HasMarker, InString, IsLead, Live,
      LeadOf, Parsed, Quiet, ReaderOf, TailOf, ValueOf;
    PartialParts(show, input, marker);
    var healing := Parsed(input, marker).healing;
    var q, lead := input[..healing.kept], LeadOf(healing, marker);
    var c := Settings(marker, true, Some(healing), paths);
    SettingHealed(c, lead, healing, marker, paths);
    HealedDelivers(show, c, q, lead, healing.tail, Containers(FinalElements(input)));
  }

  // ----- a reply that was parsed whole

  /** What a caller is given of a value that was parsed whole and does not have the marker. */
  function WholeDelivered(paths: Paths, j: Json, end: nat): Consumption {
    if paths.args == [] then Consumed(j, false, end)
    else if [] in paths.args then Consumed(Str(Dump(j)), false, end)
    else if Misplaced(paths, j, []) then Throws
    else if j.Str? && [] in paths.contents then Consumed(Str(""), true, end)
    else Consumed(DumpedAt(paths, j, []), false, end)
  }

  lemma WholeIsDelivered(c: Setting, j: Json, end: nat)
    requires c.healed == "" && c.marker != "" && !HasMarker(j, c.marker)
    ensures Delivered(c, j, end) == WholeDelivered(c.paths, j, end)
  {
    hide Clean, Dump, DumpedAt, HasMarker, Misplaced;
    CleanKeeps(c, "", j, [], false);
  }

  lemma ReaderValue(show: string -> string, text: string)
    requires Accepts(text)
    ensures Live(text) && ValueOf(show, text) == Finish(show, ReaderOf(show, text)) && Accepting(ReaderOf(show, text).st)
  {
    hide Finish, Read, Run;
    ReadState(show, BEGIN, text);
  }

  lemma PlainEscapesNone(s: string)
    requires NoUnicodeEscapes(s)
    ensures NoEscapedDigits(s)
  {
    forall i: nat | i < |s|
      ensures !EscapesDigit(s, i)
    {
      if i + 6 <= |s| {
        assert s[i..i + 5][0] == s[i] && s[i..i + 5][1] == s[i + 1];
      }
    }
  }

  /** A reply that is a JSON text, or has one in front of an error; no \u escape in it is one of a digit. */
  lemma WholeReply(show: string -> string, input: string, marker: string, isPartial: bool, paths: Paths)
    requires Parsed(input, marker).Whole? && DigitMarker(marker) && !Contains(input, marker) && NoEscapedDigits(input)
    ensures var out := Parsed(input, marker);
            && Accepts(out.text)
            && Outcomes(show, input, marker, isPartial, paths)
               == WholeDelivered(paths, ValueOf(show, out.text), out.consumed)
  {
    hide Accepts, Contains, Delivered, DigitMarker, HasMarker, NoEscapedDigits, Parsed, ValueOf, WholeDelivered;
    ParsedIsSound(input, marker);
    var out := Parsed(input, marker);
    PrefixHasNot(input, marker, out.consumed);
    assert input == "" + out.text + input[out.consumed..];
    PartEscapesNone("", out.text, input[out.consumed..]);
    TextUnmarked(show, out.text, marker);
    NotBlank(marker);
    WholeIsDelivered(Settings(marker, isPartial, None, paths), ValueOf(show, out.text), out.consumed);
  }

  /**
   A reply that is one whole string comes out empty and partial exactly when there are paths of
   arguments, the whole value is not one of them, and it is content.
   */
  lemma WholeTextLostIff(show: string -> string, input: string, marker: string, isPartial: bool, paths: Paths)
    requires Parsed(input, marker).Whole? && DigitMarker(marker) && !Contains(input, marker) && NoEscapedDigits(input)
    requires Accepts(Parsed(input, marker).text) && ValueOf(show, Parsed(input, marker).text).Str?
    ensures Outcomes(show, input, marker, isPartial, paths) == Consumed(Str(""), true, Parsed(input, marker).consumed)
            <==> paths.args != [] && [] !in paths.args && [] in paths.contents
  {
    hide Accepts, Contains, DigitMarker, Dump, NoEscapedDigits, Outcomes, Parsed, ValueOf;
    WholeReply(show, input, marker, isPartial, paths);
  }

  /**
   A JSON text with something else behind it, such as the end tag of a tool call: the value of the text
   is delivered and the cursor stands behind it, unless the scanner reads on; then there is nothing.
   */
  lemma TextBehindReply(
    show: string -> string, t: string, c: char, rest: string, marker: string, isPartial: bool, paths: Paths)
    requires Accepts(t) && !Live(t + [c]) && DigitMarker(marker)
    requires !Contains(t + [c] + rest, marker) && NoEscapedDigits(t + [c] + rest)
    ensures Outcomes(show, t + [c] + rest, marker, isPartial, paths)
            == if ScansOn(c, rest) then NoJson else WholeDelivered(paths, ValueOf(show, t), |t|)
  {
    hide Accepts, Contains, Delivered, DigitMarker, Live, NoEscapedDigits, Parsed, ScansOn, ValueOf, WholeDelivered;
    JsonThenText(t, c, rest, marker);
    if !ScansOn(c, rest) {
      WholeReply(show, t + [c] + rest, marker, isPartial, paths);
    }
  }

  /** The reply `"hi"`: its text is kept, dumped, lost, or kept, by what the paths are. */
  lemma WholeContent(show: string -> string, marker: string, isPartial: bool, paths: Paths)
    requires DigitMarker(marker)
    ensures Outcomes(show, "\"hi\"", marker, isPartial, paths)
            == if paths.args == [] then Consumed(Str("hi"), false, 4)
               else if [] in paths.args then Consumed(Str("\"hi\""), false, 4)
               else if [] in paths.contents then Consumed(Str(""), true, 4)
               else Consumed(Str("hi"), false, 4)
  {
    hide Accepts, Contains, DigitMarker, Outcomes, Parsed, ValueOf;
    var hi := "\"hi\"";
    HiDumped();
    DumpReadsBack(show, Str("hi"));
    ParsedIsSound(hi, marker);
    NoDigits(hi, marker);
    WholeReply(show, hi, marker, isPartial, paths);
  }

  lemma HiDumped()
    ensures Dump(Str("hi")) == "\"hi\""
  {
    assert "hi"[1..] == "i" && "i"[1..] == "";
    assert EscapeAll("i") == "i" && EscapeAll("hi") == "hi";
  }
}

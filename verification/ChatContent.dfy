/**
 Reasoning that is shown in the content (`reasoning_in_content` in common/chat-parser.cpp): what a reply
 shows in either mode, and when this mode takes back content that it has shown.
 */
module ChatContent {
  import opened Base
  import opened Strings
  import opened ChatParser

  const SPACES := " \t\n\U{0B}\U{0C}\r"

  predicate InContent(syntax: Syntax) {
    !syntax.reasoningFormat.NoReasoning? && syntax.reasoningInContent
  }

  /** The same syntax with the reasoning apart. */
  function Apart(syntax: Syntax): Syntax {
    syntax.(reasoningInContent := false)
  }

  /** What stands in front of reasoning: nothing where thinking is forced open. */
  function Opening(syntax: Syntax, startThink: string): string {
    if syntax.thinkingForcedOpen then "" else startThink
  }

  /** The tags that are written around reasoning in the content. */
  function OpenTag(syntax: Syntax, startThink: string): string {
    if syntax.reasoningFormat == Deepseek then "<think>" else startThink
  }

  function CloseTag(syntax: Syntax, endThink: string): string {
    if syntax.reasoningFormat == Deepseek then "</think>" else endThink
  }

  function Shown(syntax: Syntax, startThink: string, reasoning: string, closing: string): string {
    if Strip(reasoning) == "" then "" else OpenTag(syntax, startThink) + Strip(reasoning) + closing
  }

  // ----- what is shown

  lemma {:induction false} SpacesSkipped(input: string, gap: string, pos: nat, to: nat)
    requires pos + |gap| == to <= |input| && input[pos..to] == gap
    requires forall i :: 0 <= i < |gap| ==> gap[i] in SPACES
    requires to < |input| ==> input[to] !in SPACES
    ensures AfterSpaces(input, pos) == to
    decreases |gap|
  {
    if gap != "" {
      assert input[pos] == gap[0] && IsSpace(gap[0]);
      assert input[pos + 1..to] == gap[1..];
      SpacesSkipped(input, gap[1..], pos + 1, to);
    } else if to < |input| {
      SpaceIs(input[to]);
    }
  }

  lemma SpaceIs(c: char)
    ensures IsSpace(c) <==> c in SPACES
  {
    if 9 <= c as int <= 13 {
      assert c == 9 as char || c == 10 as char || c == 11 as char || c == 12 as char || c == 13 as char;
    }
  }

  lemma FirstFound(front: string, r: string, tag: string, behind: string)
    requires forall k: nat :: k < |r| ==> !Occurs(r + tag, tag, k)
    ensures Find(front + r + tag + behind, tag, |front|) == Some(|front| + |r|)
  {
    hide Find;
    var input := front + r + tag + behind;
    assert input[|front| + |r|..|front| + |r| + |tag|] == tag;
    assert Occurs(input, tag, |front| + |r|);
    forall k: nat | |front| <= k < |front| + |r|
      ensures !Occurs(input, tag, k)
    {
      assert !Occurs(r + tag, tag, k - |front|);
      assert input[k..k + |tag|] == (r + tag)[k - |front|..k - |front| + |tag|];
    }
  }

  /** Where the end tag is found. */
  lemma ParsedClosed(input: string, isPartial: bool, syntax: Syntax, startThink: string, endThink: string, at: nat)
    requires !syntax.reasoningFormat.NoReasoning? && Opening(syntax, startThink) <= input
    requires Find(input, endThink, |Opening(syntax, startThink)|) == Some(at)
    ensures |Opening(syntax, startThink)| <= at && at + |endThink| <= |input|
    ensures var r := input[|Opening(syntax, startThink)|..at];
            ParseReasoning(input, isPartial, syntax, 0, startThink, endThink)
            == Parsed(true, AfterSpaces(input, at + |endThink|),
                      if syntax.reasoningInContent then Shown(syntax, startThink, r, CloseTag(syntax, endThink)) else "",
                      if syntax.reasoningInContent then "" else Strip(r))
  {
    hide AfterSpaces, Find, Occurs, Strip;
    OpeningFound(input, syntax, startThink);
    OccursRoom(input, endThink, at);
  }

  /**
   A reply with reasoning, the end tag, spaces and content: apart, the reasoning and the content; in
   the content, the reasoning between the written tags and then the content.
   */
  lemma ReplyShown(
    syntax: Syntax, startThink: string, endThink: string, r: string, gap: string, rest: string, isPartial: bool)
    requires !syntax.reasoningFormat.NoReasoning?
    requires forall k: nat :: k < |r| ==> !Occurs(r + endThink, endThink, k)
    requires (forall i :: 0 <= i < |gap| ==> gap[i] in SPACES) && (rest != "" ==> rest[0] !in SPACES)
    ensures var input := Opening(syntax, startThink) + r + endThink + (gap + rest);
            var inside := syntax.reasoningInContent;
            && ShownReasoning(input, isPartial, syntax, startThink, endThink) == (if inside then "" else Strip(r))
            && ShownContent(input, isPartial, syntax, startThink, endThink)
               == (if inside then Shown(syntax, startThink, r, CloseTag(syntax, endThink)) else "") + rest
  {
    hide AfterSpaces, Find, Occurs, ParseReasoning, Shown, Strip;
    var front := Opening(syntax, startThink);
    var input := front + r + endThink + (gap + rest);
    var end := |front| + |r| + |endThink|;
    FirstFound(front, r, endThink, gap + rest);
    assert input[..|front|] == front && input[|front|..|front| + |r|] == r;
    assert input[end..end + |gap|] == gap && input[end + |gap|..] == rest;
    SpacesSkipped(input, gap, end, end + |gap|);
    ParsedClosed(input, isPartial, syntax, startThink, endThink, |front| + |r|);
  }

  lemma OpeningFound(input: string, syntax: Syntax, startThink: string)
    requires Opening(syntax, startThink) <= input
    ensures !syntax.thinkingForcedOpen ==> LiteralAt(input, 0, startThink)
  {
  }

  /** Reasoning without an end tag: all of it is reasoning, closed once the reply is complete. */
  lemma UnclosedShown(syntax: Syntax, startThink: string, endThink: string, r: string, isPartial: bool)
    requires !syntax.reasoningFormat.NoReasoning?
    requires forall k: nat :: !Occurs(r, endThink, k)
    requires isPartial ==> forall n: nat :: !Overlap(Opening(syntax, startThink) + r, endThink, n)
    ensures var input := Opening(syntax, startThink) + r;
            var inside := syntax.reasoningInContent;
            && ShownReasoning(input, isPartial, syntax, startThink, endThink) == (if inside then "" else Strip(r))
            && ShownContent(input, isPartial, syntax, startThink, endThink)
               == if inside then Shown(syntax, startThink, r, if isPartial then "" else CloseTag(syntax, endThink)) else ""
  {
    hide AfterSpaces, Find, Occurs, Overlap, PartialStop, Strip;
    var front := Opening(syntax, startThink);
    var input := front + r;
    assert input[|front|..] == r;
    OpeningFound(input, syntax, startThink);
    NotBehind(front, r, endThink);
  }

  lemma NotBehind(front: string, r: string, tag: string)
    requires forall k: nat :: !Occurs(r, tag, k)
    ensures Find(front + r, tag, |front|).None?
  {
    hide Find;
    var input := front + r;
    forall k: nat | |front| <= k
      ensures !Occurs(input, tag, k)
    {
      assert !Occurs(r, tag, k - |front|);
      if k + |tag| <= |input| {
        assert input[k..k + |tag|] == r[k - |front|..k - |front| + |tag|];
      }
    }
  }

  // ----- content that is taken back

  /** A partial reply that stopped inside the end tag, behind reasoning that shows. */
  predicate StopsInEndTag(s: string, syntax: Syntax, startThink: string, endThink: string) {
    var from := |Opening(syntax, startThink)|;
    && Opening(syntax, startThink) <= s && Find(s, endThink, from).None?
    && var part := PartialStop(s, endThink);
       part.Some? && part.value >= from && !Blank(s[from..part.value])
  }

  /** A partial reply that ends in no beginning of the end tag that would follow the opening. */
  lemma ParsedOpen(s: string, syntax: Syntax, startThink: string, endThink: string)
    requires InContent(syntax) && Opening(syntax, startThink) <= s
    requires Find(s, endThink, |Opening(syntax, startThink)|).None? && !StopsInEndTag(s, syntax, startThink, endThink)
    ensures var shown := ShownReasoning(s, true, Apart(syntax), startThink, endThink);
            ShownContent(s, true, syntax, startThink, endThink)
            == if shown == "" then "" else OpenTag(syntax, startThink) + shown
  {
    hide AfterSpaces, Find, Occurs, PartialStop, Strip, Blank;
    OpeningFound(s, syntax, startThink);
    var from := |Opening(syntax, startThink)|;
    var part := PartialStop(s, endThink);
    if part.Some? && part.value >= from {
      BlankTrims(s[from..part.value]);
    }
    assert s[AfterSpaces(s, |s|)..] == "";
  }

  /** Whatever the extension shows, it begins with the written opening tag and its reasoning, if there is any. */
  lemma ReasoningInFront(u: string, isPartial: bool, syntax: Syntax, startThink: string, endThink: string)
    requires InContent(syntax) && Opening(syntax, startThink) <= u
    ensures var shown := ShownReasoning(u, isPartial, Apart(syntax), startThink, endThink);
            shown != "" ==> OpenTag(syntax, startThink) + shown <= ShownContent(u, isPartial, syntax, startThink, endThink)
  {
    hide AfterSpaces, Find, FindLiteral, Strip;
    OpeningFound(u, syntax, startThink);
  }

  /** Content stays in every extension, unless the reply stopped inside one of the tags. */
  lemma InContentStays(s: string, u: string, isPartial: bool, syntax: Syntax, startThink: string, endThink: string)
    requires s <= u && InContent(syntax) && (syntax.thinkingForcedOpen || NoShadow(startThink, endThink))
    requires !InsideStartTag(s, syntax, startThink) && !StopsInEndTag(s, syntax, startThink, endThink)
    ensures ShownContent(s, true, syntax, startThink, endThink) <= ShownContent(u, isPartial, syntax, startThink, endThink)
  {
    hide Find, Occurs, ParseReasoning, ShownContent, ShownReasoning, StopsInEndTag, NoShadow;
    var front := Opening(syntax, startThink);
    if !(front <= s) {
      WithoutOpening(s, u, isPartial, syntax, startThink, endThink);
    } else if Find(s, endThink, |front|).Some? {
      ClosedGrows(s, u, isPartial, syntax, startThink, endThink);
    } else {
      ParsedOpen(s, syntax, startThink, endThink);
      ReasoningInFront(u, isPartial, syntax, startThink, endThink);
      ReasoningNeverRetracted(s, u, isPartial, Apart(syntax), startThink, endThink);
    }
  }

  lemma WithoutOpening(s: string, u: string, isPartial: bool, syntax: Syntax, startThink: string, endThink: string)
    requires s <= u && InContent(syntax) && !InsideStartTag(s, syntax, startThink) && !(Opening(syntax, startThink) <= s)
    ensures ShownContent(s, true, syntax, startThink, endThink) <= ShownContent(u, isPartial, syntax, startThink, endThink)
  {
    hide AfterSpaces, FindLiteral;
    StartTagStaysAway(s, u, syntax, startThink);
  }

  lemma ClosedGrows(s: string, u: string, isPartial: bool, syntax: Syntax, startThink: string, endThink: string)
    requires s <= u && InContent(syntax) && Opening(syntax, startThink) <= s
    requires Find(s, endThink, |Opening(syntax, startThink)|).Some?
    ensures ShownContent(s, true, syntax, startThink, endThink) <= ShownContent(u, isPartial, syntax, startThink, endThink)
  {
    hide AfterSpaces, Find, Occurs, ParseReasoning, Shown;
    var from := |Opening(syntax, startThink)|;
    var at := Find(s, endThink, from).value;
    FindIsStable(s, u, from, endThink);
    ParsedClosed(s, true, syntax, startThink, endThink, at);
    ParsedClosed(u, isPartial, syntax, startThink, endThink, at);
    var end := at + |endThink|;
    SpacesAreStable(s, u, end);
    SuffixGrows(s, u, AfterSpaces(s, end), AfterSpaces(u, end));
    assert s[from..at] == u[from..at];
  }

  lemma {:induction false} TrimLeftSuffix(s: string)
    ensures |TrimLeft(s)| <= |s| && s[|s| - |TrimLeft(s)|..] == TrimLeft(s)
  {
    if s != "" && IsSpace(s[0]) {
      TrimLeftSuffix(s[1..]);
    }
  }

  /** Where a literal occurs in what is left of a text, it occurs in the text. */
  lemma StripOccurs(s: string, p: string, i: nat)
    requires Occurs(Strip(s), p, i)
    ensures exists k: nat :: Occurs(s, p, k)
  {
    hide Strip, TrimLeft;
    var left := TrimLeft(s);
    TrimLeftSuffix(s);
    StripPrefix(s);
    var k := |s| - |left| + i;
    assert Strip(s)[i..i + |p|] == left[i..i + |p|] == s[k..k + |p|];
    assert Occurs(s, p, k);
  }

  lemma StripPrefix(s: string)
    ensures Strip(s) <= TrimLeft(s)
  {
    TrimRightShape(TrimLeft(s));
  }

  lemma OccursBehind(s: string, from: nat, p: string, k: nat)
    requires from <= |s| && Occurs(s[from..], p, k)
    ensures Occurs(s, p, from + k)
  {
    assert s[from..][k..k + |p|] == s[from + k..from + k + |p|];
  }

  /** A character that the tag lacks ends every beginning of it. */
  lemma Broken(s: string, from: nat, c: char, tag: string)
    requires from <= |s| && Find(s, tag, from).None? && c !in tag && tag != ""
    ensures Find(s + [c], tag, from).None? && PartialStop(s + [c], tag).None?
  {
    hide Find, Occurs;
    var u := s + [c];
    forall k: nat | from <= k
      ensures !Occurs(u, tag, k)
    {
      BrokenAt(s, c, tag, k);
    }
    forall n: nat
      ensures !Overlap(u, tag, n)
    {
      if 0 < n <= |tag| && n <= |u| {
        assert u[|u| - n..][n - 1] == c && tag[..n][n - 1] in tag;
      }
    }
  }

  lemma BrokenAt(s: string, c: char, tag: string, k: nat)
    requires c !in tag && tag != ""
    ensures Occurs(s + [c], tag, k) ==> Occurs(s, tag, k)
  {
    var u := s + [c];
    if Occurs(u, tag, k) {
      assert u[k..k + |tag|][|tag| - 1] == u[k + |tag| - 1];
      assert k + |tag| < |u|;
      assert u[k..k + |tag|] == s[k..k + |tag|];
    }
  }

  lemma PrefixOccurs(open: string, p: string, tag: string, x: string)
    requires open + p + tag <= open + x
    ensures Occurs(x, tag, |p|)
  {
    var whole := open + x;
    assert whole[|open|..] == x;
    assert x[|p|..|p| + |tag|] == whole[|open| + |p|..|open| + |p| + |tag|] == tag;
  }

  /** What is shown where the reply stopped inside the end tag. */
  lemma ShownInEndTag(s: string, syntax: Syntax, startThink: string, endThink: string)
    requires InContent(syntax) && StopsInEndTag(s, syntax, startThink, endThink)
    ensures endThink != ""
    ensures var p := Strip(s[|Opening(syntax, startThink)|..PartialStop(s, endThink).value]);
            p != "" && ShownContent(s, true, syntax, startThink, endThink)
                       == OpenTag(syntax, startThink) + p + CloseTag(syntax, endThink)
  {
    hide AfterSpaces, Find, Occurs, PartialStop, Strip, Blank;
    OpeningFound(s, syntax, startThink);
    BlankTrims(s[|Opening(syntax, startThink)|..PartialStop(s, endThink).value]);
    assert s[AfterSpaces(s, |s|)..] == "";
  }

  lemma ShownWithoutEndTag(u: string, syntax: Syntax, startThink: string, endThink: string)
    requires InContent(syntax) && Opening(syntax, startThink) <= u
    requires Find(u, endThink, |Opening(syntax, startThink)|).None? && PartialStop(u, endThink).None?
    ensures ShownContent(u, true, syntax, startThink, endThink)
            == Shown(syntax, startThink, u[|Opening(syntax, startThink)|..], "")
  {
    hide AfterSpaces, Find, Occurs, PartialStop, Strip;
    OpeningFound(u, syntax, startThink);
  }

  /** The end tag is written although it has not come: a character that it lacks takes it back. */
  lemma EndTagTakenBack(s: string, c: char, syntax: Syntax, startThink: string, endThink: string)
    requires InContent(syntax) && StopsInEndTag(s, syntax, startThink, endThink) && c !in endThink
    requires CloseTag(syntax, endThink) == endThink
    ensures !(ShownContent(s, true, syntax, startThink, endThink) <= ShownContent(s + [c], true, syntax, startThink, endThink))
  {
    hide Find, Occurs, PartialStop, ShownContent, Strip;
    var u, from := s + [c], |Opening(syntax, startThink)|;
    var p := Strip(s[from..PartialStop(s, endThink).value]);
    ShownInEndTag(s, syntax, startThink, endThink);
    Broken(s, from, c, endThink);
    ShownWithoutEndTag(u, syntax, startThink, endThink);
    if ShownContent(s, true, syntax, startThink, endThink) <= ShownContent(u, true, syntax, startThink, endThink) {
      PrefixOccurs(OpenTag(syntax, startThink), p, endThink, Strip(u[from..]));
      StripOccurs(u[from..], endThink, |p|);
      var k: nat :| Occurs(u[from..], endThink, k);
      OccursBehind(u, from, endThink, k);
    }
  }

  /**
   Content with the reasoning in it is taken back by some extension iff the reply stopped inside the
   start tag, or inside the end tag behind reasoning that shows: there the end tag is written too early.
   */
  lemma InContentStaysIff(s: string, c: char, syntax: Syntax, startThink: string, endThink: string)
    requires InContent(syntax) && (syntax.thinkingForcedOpen || NoShadow(startThink, endThink))
    requires CloseTag(syntax, endThink) == endThink && c !in endThink
    ensures ContentStays(s, syntax, startThink, endThink)
            <==> !InsideStartTag(s, syntax, startThink) && !StopsInEndTag(s, syntax, startThink, endThink)
  {
    hide NoShadow, ParseReasoning, ShownContent, StopsInEndTag;
    if InsideStartTag(s, syntax, startThink) {
      StartTagShown(s, syntax, startThink, endThink);
    } else if StopsInEndTag(s, syntax, startThink, endThink) {
      EndTagTakenBack(s, c, syntax, startThink, endThink);
      assert s <= s + [c];
    } else {
      forall u: string, isPartial: bool | s <= u
        ensures ShownContent(s, true, syntax, startThink, endThink)
                <= ShownContent(u, isPartial, syntax, startThink, endThink)
      {
        InContentStays(s, u, isPartial, syntax, startThink, endThink);
      }
    }
  }

  lemma StartTagShown(s: string, syntax: Syntax, startThink: string, endThink: string)
    requires InContent(syntax) && InsideStartTag(s, syntax, startThink)
    ensures ShownContent(s, true, syntax, startThink, endThink) == s
    ensures s <= startThink && ShownContent(startThink, true, syntax, startThink, endThink) == ""
  {
  }
}

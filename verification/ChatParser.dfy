/**
 The cursor machine that takes reasoning and content out of possibly partial model output
 (common/chat-parser.cpp), and what it may not do while a reply is streamed: take back text.
 */
module ChatParser {
  import opened Base
  import opened Strings

  datatype ReasoningFormat = NoReasoning | Auto | DeepseekLegacy | Deepseek

  datatype Syntax = Syntax(reasoningFormat: ReasoningFormat, reasoningInContent: bool, thinkingForcedOpen: bool)

  // ----- what the machine's operations compute

  /** What a search for a literal takes: the text before it, and the cursor after it. */
  datatype Found = Found(prelude: string, end: nat)

  /** A partial input may end in the beginning of the literal. */
  function FindLiteral(input: string, pos: nat, literal: string, isPartial: bool): (r: Option<Found>)
    requires pos <= |input|
    ensures r.Some? ==> pos <= r.value.end <= |input|
  {
    var full := Find(input, literal, pos);
    if full.Some? then Some(Found(input[pos..full.value], full.value + |literal|))
    else if !isPartial then None
    else
      var part := PartialStop(input, literal);
      if part.Some? && part.value >= pos then Some(Found(input[pos..part.value], |input|)) else None
  }

  function AfterSpaces(input: string, pos: nat): (r: nat)
    requires pos <= |input|
    ensures pos <= r <= |input|
    ensures forall k :: pos <= k < r ==> IsSpace(input[k])
    ensures r < |input| ==> !IsSpace(input[r])
    decreases |input| - pos
  {
    if pos < |input| && IsSpace(input[pos]) then AfterSpaces(input, pos + 1) else pos
  }

  predicate LiteralAt(input: string, pos: nat, literal: string) {
    Occurs(input, literal, pos)
  }

  /** What handling a piece of reasoning adds to content and to reasoning content. */
  function Handled(syntax: Syntax, startThink: string, endThink: string, reasoning: string, closed: bool): (string, string) {
    var stripped := Strip(reasoning);
    if stripped == "" then ("", "")
    else if !syntax.reasoningInContent then ("", stripped)
    else
      var deepseek := syntax.reasoningFormat.Deepseek?;
      ((if deepseek then "<think>" else startThink) + stripped
       + (if !closed then "" else if deepseek then "</think>" else endThink),
       "")
  }

  datatype Parsed = Parsed(found: bool, pos: nat, content: string, reasoning: string)

  function ParseReasoning(
    input: string, isPartial: bool, syntax: Syntax, pos: nat, startThink: string, endThink: string): (r: Parsed)
    requires pos <= |input|
    ensures pos <= r.pos <= |input|
  {
    if syntax.reasoningFormat.NoReasoning? then Parsed(false, pos, "", "")
    else if !syntax.thinkingForcedOpen && !LiteralAt(input, pos, startThink) then Parsed(false, pos, "", "")
    else
      var from := if syntax.thinkingForcedOpen then pos else pos + |startThink|;
      var found := FindLiteral(input, from, endThink, isPartial);
      if found.Some? then
        var (content, reasoning) := Handled(syntax, startThink, endThink, found.value.prelude, true);
        Parsed(true, AfterSpaces(input, found.value.end), content, reasoning)
      else
        var (content, reasoning) := Handled(syntax, startThink, endThink, input[from..], !isPartial);
        Parsed(true, |input|, content, reasoning)
  }

  // ----- the machine

  class ChatMsgParser {
    const input: string
    const isPartial: bool
    const syntax: Syntax
    var pos: nat
    var content: string
    var reasoning: string

    constructor (input: string, isPartial: bool, syntax: Syntax)
      ensures this.input == input && this.isPartial == isPartial && this.syntax == syntax
      ensures pos == 0 && content == "" && reasoning == ""
    {
      this.input, this.isPartial, this.syntax := input, isPartial, syntax;
      pos, content, reasoning := 0, "", "";
    }

    method ConsumeSpaces() returns (consumed: bool)
      requires pos <= |input|
      modifies this`pos
      ensures pos == AfterSpaces(input, old(pos)) && (consumed <==> pos > old(pos))
    {
      consumed := false;
      while pos < |input| && IsSpace(input[pos])
        invariant old(pos) <= pos <= |input|
        invariant AfterSpaces(input, pos) == AfterSpaces(input, old(pos))
        invariant consumed <==> pos > old(pos)
      {
        pos := pos + 1;
        consumed := true;
      }
    }

    method TryConsumeLiteral(literal: string) returns (ok: bool)
      requires pos <= |input|
      modifies this`pos
      ensures ok <==> LiteralAt(input, old(pos), literal)
      ensures pos == if ok then old(pos) + |literal| else old(pos)
    {
      var at := pos;
      for i := 0 to |literal|
        invariant at == pos + i <= |input|
        invariant input[pos..at] == literal[..i]
      {
        if at >= |input| {
          return false;
        }
        if input[at] != literal[i] {
          assert pos + |literal| <= |input| ==> input[pos..pos + |literal|][i] == input[at];
          return false;
        }
        assert input[pos..at + 1] == input[pos..at] + [input[at]] && literal[..i + 1] == literal[..i] + [literal[i]];
        at := at + 1;
      }
      assert literal[..|literal|] == literal;
      pos := at;
      ok := true;
    }

    method TryFindLiteral(literal: string) returns (r: Option<Found>)
      requires pos <= |input|
      modifies this`pos
      ensures r == FindLiteral(input, old(pos), literal, isPartial)
      ensures pos == if r.Some? then r.value.end else old(pos)
    {
      var full := Find(input, literal, pos);
      if full.Some? {
        var prelude := input[pos..full.value];
        pos := full.value + |literal|;
        return Some(Found(prelude, pos));
      }
      if isPartial {
        var part := StringFindPartialStop(input, literal);
        if part.Some? && part.value >= pos {
          var prelude := input[pos..part.value];
          pos := |input|;
          return Some(Found(prelude, pos));
        }
      }
      r := None;
    }

    method ConsumeRest() returns (rest: string)
      requires pos <= |input|
      modifies this`pos
      ensures rest == input[old(pos)..] && pos == |input|
    {
      rest := input[pos..];
      pos := |input|;
    }

    method AddContent(text: string)
      modifies this`content
      ensures content == old(content) + text
    {
      content := content + text;
    }

    method HandleReasoning(startThink: string, endThink: string, text: string, closed: bool)
      modifies this`content, this`reasoning
      ensures content == old(content) + Handled(syntax, startThink, endThink, text, closed).0
      ensures reasoning == old(reasoning) + Handled(syntax, startThink, endThink, text, closed).1
    {
      var stripped := StringStrip(text);
      if stripped == "" {
        return;
      }
      if syntax.reasoningInContent {
        AddContent(if syntax.reasoningFormat.Deepseek? then "<think>" else startThink);
        AddContent(stripped);
        if closed {
          AddContent(if syntax.reasoningFormat.Deepseek? then "</think>" else endThink);
        }
      } else {
        reasoning := reasoning + stripped;
      }
    }

    method TryParseReasoning(startThink: string, endThink: string) returns (ok: bool)
      requires pos <= |input|
      modifies this
      ensures var r := ParseReasoning(input, isPartial, syntax, old(pos), startThink, endThink);
              && ok == r.found && pos == r.pos
              && content == old(content) + r.content && reasoning == old(reasoning) + r.reasoning
    {
      if syntax.reasoningFormat.NoReasoning? {
        return false;
      }
      if !syntax.thinkingForcedOpen {
        var opened' := TryConsumeLiteral(startThink);
        if !opened' {
          return false;
        }
      }
      var found := TryFindLiteral(endThink);
      if found.Some? {
        HandleReasoning(startThink, endThink, found.value.prelude, true);
        var spaces := ConsumeSpaces();
        return true;
      }
      var rest := ConsumeRest();
      if rest != "" {
        HandleReasoning(startThink, endThink, rest, !isPartial);
      }
      return true;
    }

    /** Reasoning, then everything else as content: the parsers of chat.cpp when tool calls are not parsed. */
    method ParseReasoningThenContent(startThink: string, endThink: string)
      requires pos == 0 && content == "" && reasoning == ""
      modifies this
      ensures reasoning == ShownReasoning(input, isPartial, syntax, startThink, endThink)
      ensures content == ShownContent(input, isPartial, syntax, startThink, endThink)
      ensures pos == |input|
    {
      hide AfterSpaces, Find, FindLiteral, Occurs;
      var ok := TryParseReasoning(startThink, endThink);
      var rest := ConsumeRest();
      AddContent(rest);
    }
  }

  function ShownReasoning(input: string, isPartial: bool, syntax: Syntax, startThink: string, endThink: string): string {
    ParseReasoning(input, isPartial, syntax, 0, startThink, endThink).reasoning
  }

  function ShownContent(input: string, isPartial: bool, syntax: Syntax, startThink: string, endThink: string): string {
    var r := ParseReasoning(input, isPartial, syntax, 0, startThink, endThink);
    r.content + input[r.pos..]
  }

  // ----- searching in a text that grows

  /**
   A suffix of the start tag that begins the end tag, read on, ends in a shorter beginning of the end
   tag, which is more than spaces: the longer overlap hides it.
   */
  predicate Shadow(startThink: string, endThink: string, k: nat, m: nat, n: nat) {
    && 1 <= k <= |startThink| && k < m <= |endThink|
    && startThink[|startThink| - k..] == endThink[..k]
    && 1 <= n <= m - k
    && endThink[m - n..m] == endThink[..n]
    && !Blank(endThink[..n])
  }

  predicate NoShadow(startThink: string, endThink: string) {
    forall k: nat, m: nat, n: nat :: k <= |endThink| && m <= |endThink| && n <= |endThink| ==>
      !Shadow(startThink, endThink, k, m, n)
  }

  /** The part of the text after `pos` that can no longer be the beginning of the literal. */
  function Settled(input: string, pos: nat, literal: string, isPartial: bool): string
    requires pos <= |input|
  {
    var found := FindLiteral(input, pos, literal, isPartial);
    if found.Some? then found.value.prelude else input[pos..]
  }

  lemma OccursInPrefix(s: string, u: string, p: string, i: nat)
    requires s <= u && i + |p| <= |s|
    ensures Occurs(s, p, i) <==> Occurs(u, p, i)
  {
    assert s[i..i + |p|] == u[i..i + |p|];
  }

  /** An occurrence in the longer text that crosses the end of the shorter one is an overlap there. */
  lemma CrossingIsOverlap(s: string, u: string, p: string, i: nat)
    requires s <= u && i < |s| <= i + |p| && Occurs(u, p, i)
    ensures Overlap(s, p, |s| - i)
  {
    var n := |s| - i;
    assert s[i..] == u[i..i + |p|][..n];
  }

  lemma FindIsStable(s: string, u: string, pos: nat, p: string)
    requires pos <= |s| && s <= u && Find(s, p, pos).Some?
    ensures Find(u, p, pos) == Find(s, p, pos)
  {
    hide Find, Occurs;
    var i := Find(s, p, pos).value;
    OccursRoom(s, p, i);
    OccursInPrefix(s, u, p, i);
    forall k: nat | pos <= k < i
      ensures !Occurs(u, p, k)
    {
      OccursInPrefix(s, u, p, k);
    }
  }

  /** What is settled in a partial text is settled, and the beginning of what is, in every extension. */
  lemma SettledGrows(s: string, u: string, pos: nat, p: string, isPartial: bool)
    requires pos <= |s| && s <= u
    requires PartialStop(s, p).Some? && PartialStop(s, p).value < pos ==>
               forall n: nat :: 0 < n <= |s| - pos ==> !Overlap(s, p, n)
    ensures Settled(s, pos, p, true) <= Settled(u, pos, p, isPartial)
  {
    hide Find, Occurs, Overlap, PartialStop;
    if Find(s, p, pos).Some? {
      FindIsStable(s, u, pos, p);
    } else {
      var found := FindLiteral(u, pos, p, isPartial);
      var i := if found.Some? then pos + |found.value.prelude| else |u|;
      var before, after := Settled(s, pos, p, true), Settled(u, pos, p, isPartial);
      assert after == u[pos..i] && before == s[pos..pos + |before|];
      if found.Some? {
        FoundEarlier(s, u, pos, p, isPartial, i);
      }
      assert pos + |before| <= i;
      assert before == after[..|before|];
    }
  }

  /** Without shadows, when the longest overlap starts inside the start tag any other is all spaces. */
  lemma NoShadowNoOverlap(s: string, startThink: string, endThink: string)
    requires NoShadow(startThink, endThink) && startThink <= s
    requires PartialStop(s, endThink).Some? && PartialStop(s, endThink).value < |startThink|
    ensures forall n: nat :: 0 < n <= |s| - |startThink| && Overlap(s, endThink, n) ==> Blank(endThink[..n])
  {
    hide Blank;
    var idx := PartialStop(s, endThink).value;
    var k, m := |startThink| - idx, |s| - idx;
    forall n: nat | 0 < n <= |s| - |startThink| && Overlap(s, endThink, n)
      ensures Blank(endThink[..n])
    {
      assert startThink[|startThink| - k..] == s[idx..][..k] == endThink[..m][..k];
      assert endThink[m - n..m] == s[idx..][m - n..] == s[|s| - n..];
      assert !Shadow(startThink, endThink, k, m, n);
    }
  }

  /** Where the search ends in a longer text, if that is before the end of the shorter one. */
  lemma FoundEarlier(s: string, u: string, pos: nat, p: string, isPartial: bool, i: nat)
    requires pos <= |s| && s <= u && Find(s, p, pos).None?
    requires FindLiteral(u, pos, p, isPartial).Some? && i == pos + |FindLiteral(u, pos, p, isPartial).value.prelude|
    ensures i < |s| ==> Overlap(s, p, |s| - i)
  {
    hide PartialStop, Find, Overlap, Occurs;
    if Find(u, p, pos).Some? {
      if i < |s| {
        FullCrosses(s, u, pos, p, i);
      }
    } else if i < |s| {
      PartialCrosses(s, u, p, i);
    }
  }

  lemma FullCrosses(s: string, u: string, pos: nat, p: string, i: nat)
    requires pos <= i < |s| && s <= u && Find(s, p, pos).None? && Occurs(u, p, i)
    ensures Overlap(s, p, |s| - i)
  {
    hide Find, Overlap;
    if i + |p| <= |s| {
      OccursInPrefix(s, u, p, i);
      assert false;
    }
    CrossingIsOverlap(s, u, p, i);
  }

  lemma PartialCrosses(s: string, u: string, p: string, i: nat)
    requires i < |s| && s <= u && PartialStop(u, p) == Some(i)
    ensures Overlap(s, p, |s| - i)
  {
    var n := |s| - i;
    assert s[i..] == u[i..][..n] == p[..|u| - i][..n];
  }

  /** When only spaces can be the beginning of the literal, what shows of a text stays in every extension. */
  lemma BlankOverlaps(s: string, u: string, pos: nat, p: string, isPartial: bool)
    requires pos <= |s| && s <= u
    requires PartialStop(s, p).Some? && PartialStop(s, p).value < pos
    requires forall n: nat :: 0 < n <= |s| - pos && Overlap(s, p, n) ==> Blank(p[..n])
    ensures Strip(Settled(s, pos, p, true)) <= Strip(Settled(u, pos, p, isPartial))
  {
    hide PartialStop, Find, Strip, Blank;
    if Find(s, p, pos).Some? {
      FindIsStable(s, u, pos, p);
    } else {
      var found := FindLiteral(u, pos, p, isPartial);
      var i := if found.Some? then pos + |found.value.prelude| else |u|;
      var after := Settled(u, pos, p, isPartial);
      assert after == u[pos..i] && Settled(s, pos, p, true) == s[pos..];
      if i < |s| {
        FoundEarlier(s, u, pos, p, isPartial, i);
        var n := |s| - i;
        assert s[i..] == p[..n];
        assert s[pos..] == after + s[i..];
        StripAppend(after, s[i..]);
      } else {
        assert s == u[..|s|];
        assert s[pos..] == after[..|s| - pos];
        StripMonotone(s[pos..], after);
      }
    }
  }

  predicate Extracting(syntax: Syntax) {
    !syntax.reasoningFormat.NoReasoning? && !syntax.reasoningInContent
  }

  /** Reasoning shown for a partial reply is the beginning of the reasoning shown for every extension. */
  lemma ReasoningNeverRetracted(
    s: string, u: string, isPartial: bool, syntax: Syntax, startThink: string, endThink: string)
    requires s <= u && Extracting(syntax)
    requires syntax.thinkingForcedOpen || NoShadow(startThink, endThink)
    ensures ShownReasoning(s, true, syntax, startThink, endThink)
            <= ShownReasoning(u, isPartial, syntax, startThink, endThink)
  {
    var from := if syntax.thinkingForcedOpen then 0 else |startThink|;
    if syntax.thinkingForcedOpen || LiteralAt(s, 0, startThink) {
      if !syntax.thinkingForcedOpen {
        OccursInPrefix(s, u, startThink, 0);
      }
      if PartialStop(s, endThink).Some? && PartialStop(s, endThink).value < from {
        NoShadowNoOverlap(s, startThink, endThink);
        BlankOverlaps(s, u, from, endThink, isPartial);
      } else {
        SettledGrows(s, u, from, endThink, isPartial);
        StripMonotone(Settled(s, from, endThink, true), Settled(u, from, endThink, isPartial));
      }
    }
  }

  /** The reasoning that is shown, once the start tag is there. */
  lemma ReasoningIsSettled(input: string, isPartial: bool, syntax: Syntax, startThink: string, endThink: string)
    requires Extracting(syntax) && !syntax.thinkingForcedOpen && LiteralAt(input, 0, startThink)
    ensures ShownReasoning(input, isPartial, syntax, startThink, endThink)
            == Strip(Settled(input, |startThink|, endThink, isPartial))
  {
  }

  /** With a shadow, all that follows the start tag is shown although it ends in a beginning of the end tag. */
  lemma ShadowShows(startThink: string, endThink: string, k: nat, m: nat, n: nat)
    requires Shadow(startThink, endThink, k, m, n)
    ensures Settled(startThink + endThink[k..m], |startThink|, endThink, true) == endThink[k..m]
  {
    var s := startThink + endThink[k..m];
    assert s[|startThink|..] == endThink[k..m];
    assert s[|s| - m..] == startThink[|startThink| - k..] + endThink[k..m] == endThink[..m];
    assert Overlap(s, endThink, m);
  }

  /** A complete end tag after some text ends the reasoning before or with that text. */
  lemma EndTagEnds(startThink: string, kept: string, endThink: string)
    ensures Settled(startThink + kept + endThink, |startThink|, endThink, false) <= kept
  {
    var u := startThink + kept + endThink;
    var at := |startThink| + |kept|;
    assert u[at..at + |endThink|] == endThink;
    assert Occurs(u, endThink, at);
    var i := Find(u, endThink, |startThink|).value;
    assert u[|startThink|..i] == kept[..i - |startThink|];
  }

  /** A shadow makes the program take back reasoning that it has shown. */
  lemma ShadowRetracts(syntax: Syntax, startThink: string, endThink: string, k: nat, m: nat, n: nat)
    returns (s: string, u: string)
    requires Extracting(syntax) && !syntax.thinkingForcedOpen && Shadow(startThink, endThink, k, m, n)
    ensures s <= u
    ensures |ShownReasoning(s, true, syntax, startThink, endThink)|
            > |ShownReasoning(u, false, syntax, startThink, endThink)|
  {
    var shown, kept := endThink[k..m], endThink[k..m - n];
    s, u := startThink + shown, startThink + kept + endThink;
    assert shown == kept + endThink[..n];
    assert u == s + endThink[n..];
    assert s[..|startThink|] == startThink && u[..|startThink|] == startThink;
    ReasoningIsSettled(s, true, syntax, startThink, endThink);
    ReasoningIsSettled(u, false, syntax, startThink, endThink);
    ShadowShows(startThink, endThink, k, m, n);
    StripAppend(kept, endThink[..n]);
    EndTagEnds(startThink, kept, endThink);
    StripMonotone(Settled(u, |startThink|, endThink, false), kept);
  }

  ghost predicate NeverRetracts(syntax: Syntax, startThink: string, endThink: string) {
    forall s: string, u: string, isPartial: bool :: s <= u ==>
      ShownReasoning(s, true, syntax, startThink, endThink) <= ShownReasoning(u, isPartial, syntax, startThink, endThink)
  }

  /** The tags for which reasoning is never taken back are exactly those without a shadow. */
  lemma NeverRetractsIff(syntax: Syntax, startThink: string, endThink: string)
    requires Extracting(syntax) && !syntax.thinkingForcedOpen
    ensures NeverRetracts(syntax, startThink, endThink) <==> NoShadow(startThink, endThink)
  {
    if NoShadow(startThink, endThink) {
      forall s: string, u: string, isPartial: bool | s <= u
        ensures ShownReasoning(s, true, syntax, startThink, endThink)
                <= ShownReasoning(u, isPartial, syntax, startThink, endThink)
      {
        ReasoningNeverRetracted(s, u, isPartial, syntax, startThink, endThink);
      }
    } else {
      var k: nat, m: nat, n: nat :|
        k <= |endThink| && m <= |endThink| && n <= |endThink| && Shadow(startThink, endThink, k, m, n);
      var s, u := ShadowRetracts(syntax, startThink, endThink, k, m, n);
    }
  }

  /** Tags of which no suffix of the one begins the other, short of being all of it. */
  lemma TagsWithoutShadow(startThink: string, endThink: string)
    requires forall k: nat :: 1 <= k <= |startThink| && k < |endThink| ==>
               startThink[|startThink| - k..] != endThink[..k]
    ensures NoShadow(startThink, endThink)
  {
    hide Blank;
  }

  /** Tags whose common first character is followed by different ones, or comes too early in the start tag. */
  lemma TagsDiffer(startThink: string, endThink: string)
    requires forall i :: 0 <= i < |startThink| && |startThink| - i < |endThink| ==>
               startThink[i] != endThink[0] || (i + 1 < |startThink| && startThink[i + 1] != endThink[1])
    ensures NoShadow(startThink, endThink)
  {
    forall k: nat | 1 <= k <= |startThink| && k < |endThink|
      ensures startThink[|startThink| - k..] != endThink[..k]
    {
      var i := |startThink| - k;
      var suffix, prefix := startThink[i..], endThink[..k];
      assert startThink[i] != endThink[0] || (i + 1 < |startThink| && startThink[i + 1] != endThink[1]);
      assert suffix[0] == startThink[i] && prefix[0] == endThink[0];
      assert k > 1 ==> suffix[1] == startThink[i + 1] && prefix[1] == endThink[1];
    }
    TagsWithoutShadow(startThink, endThink);
  }

  /** All the pairs of tags that the program uses. */
  lemma ProgramTags()
    ensures NoShadow("<think>", "</think>")
    ensures NoShadow("<seed:think>", "</seed:think>")
    ensures NoShadow("<|START_THINKING|>", "<|END_THINKING|>")
    ensures NoShadow("<|channel|>analysis<|message|>", "<|end|>")
  {
    hide NoShadow;
    TagsDiffer("<think>", "</think>");
    TagsDiffer("<seed:think>", "</seed:think>");
    TagsDiffer("<|START_THINKING|>", "<|END_THINKING|>");
    TagsDiffer("<|channel|>analysis<|message|>", "<|end|>");
  }

  lemma SpacesAreStable(s: string, u: string, pos: nat)
    requires pos <= |s| && s <= u
    ensures AfterSpaces(s, pos) <= AfterSpaces(u, pos)
    ensures AfterSpaces(s, pos) < |s| ==> AfterSpaces(u, pos) == AfterSpaces(s, pos)
    decreases |s| - pos
  {
    if pos < |s| && IsSpace(s[pos]) {
      SpacesAreStable(s, u, pos + 1);
    }
  }

  /** A text that has stopped inside the start tag is shown as content, and taken back later. */
  predicate InsideStartTag(s: string, syntax: Syntax, startThink: string) {
    !syntax.thinkingForcedOpen && s != "" && s < startThink
  }

  /** What follows the first end tag and its spaces. */
  function ContentAfter(input: string, from: nat, endThink: string): string
    requires from <= |input|
  {
    var end := Find(input, endThink, from);
    if end.Some? then input[AfterSpaces(input, end.value + |endThink|)..] else ""
  }

  /** A partial end tag reaches to the end of the input. */
  lemma ContentAfterFound(input: string, from: nat, endThink: string, isPartial: bool)
    requires from <= |input|
    ensures var found := FindLiteral(input, from, endThink, isPartial);
            ContentAfter(input, from, endThink) == if found.Some? then input[AfterSpaces(input, found.value.end)..] else ""
  {
    hide Find, Occurs, PartialStop;
    assert input[AfterSpaces(input, |input|)..] == "";
  }

  lemma ContentAfterTag(input: string, isPartial: bool, syntax: Syntax, startThink: string, endThink: string)
    requires Extracting(syntax)
    ensures syntax.thinkingForcedOpen ==>
              ShownContent(input, isPartial, syntax, startThink, endThink) == ContentAfter(input, 0, endThink)
    ensures !syntax.thinkingForcedOpen && LiteralAt(input, 0, startThink) ==>
              ShownContent(input, isPartial, syntax, startThink, endThink) == ContentAfter(input, |startThink|, endThink)
  {
    hide AfterSpaces, ContentAfter, FindLiteral, Strip;
    if syntax.thinkingForcedOpen {
      ContentAfterFound(input, 0, endThink, isPartial);
    } else if LiteralAt(input, 0, startThink) {
      ContentAfterFound(input, |startThink|, endThink, isPartial);
    }
  }

  lemma SuffixGrows(s: string, u: string, a: nat, b: nat)
    requires s <= u && a <= |s| && b <= |u| && (a == b || a == |s|)
    ensures s[a..] <= u[b..]
  {
    if a == b {
      assert s == u[..|s|];
      assert u[b..][..|s| - a] == s[a..];
    }
  }

  lemma ContentAt(s: string, from: nat, endThink: string, end: nat)
    requires from <= |s| && Find(s, endThink, from).Some? && end == Find(s, endThink, from).value + |endThink|
    ensures end <= |s| && ContentAfter(s, from, endThink) == s[AfterSpaces(s, end)..]
  {
    hide AfterSpaces, Find;
  }

  lemma ContentAfterGrows(s: string, u: string, from: nat, endThink: string)
    requires s <= u && from <= |s|
    ensures ContentAfter(s, from, endThink) <= ContentAfter(u, from, endThink)
  {
    hide AfterSpaces, Find, Occurs;
    if Find(s, endThink, from).Some? {
      var end := Find(s, endThink, from).value + |endThink|;
      FindIsStable(s, u, from, endThink);
      hide ContentAfter;
      ContentAt(s, from, endThink, end);
      ContentAt(u, from, endThink, end);
      SpacesAreStable(s, u, end);
      SuffixGrows(s, u, AfterSpaces(s, end), AfterSpaces(u, end));
    }
  }

  lemma ContentNeverRetracted(
    s: string, u: string, isPartial: bool, syntax: Syntax, startThink: string, endThink: string)
    requires s <= u && Extracting(syntax) && !InsideStartTag(s, syntax, startThink)
    ensures ShownContent(s, true, syntax, startThink, endThink) <= ShownContent(u, isPartial, syntax, startThink, endThink)
  {
    ContentAfterTag(s, true, syntax, startThink, endThink);
    ContentAfterTag(u, isPartial, syntax, startThink, endThink);
    if syntax.thinkingForcedOpen {
      ContentAfterGrows(s, u, 0, endThink);
    } else if LiteralAt(s, 0, startThink) {
      OccursInPrefix(s, u, startThink, 0);
      ContentAfterGrows(s, u, |startThink|, endThink);
    } else {
      StartTagStaysAway(s, u, syntax, startThink);
      ContentWithoutTag(s, true, syntax, startThink, endThink);
      if s != "" {
        ContentWithoutTag(u, isPartial, syntax, startThink, endThink);
      }
    }
  }

  lemma ContentWithoutTag(input: string, isPartial: bool, syntax: Syntax, startThink: string, endThink: string)
    requires Extracting(syntax) && !syntax.thinkingForcedOpen && !LiteralAt(input, 0, startThink)
    ensures ShownContent(input, isPartial, syntax, startThink, endThink) == input
  {
  }

  lemma StartTagStaysAway(s: string, u: string, syntax: Syntax, startThink: string)
    requires s <= u && !syntax.thinkingForcedOpen && !InsideStartTag(s, syntax, startThink)
    requires !LiteralAt(s, 0, startThink)
    ensures s == "" || !LiteralAt(u, 0, startThink)
  {
    if |startThink| <= |s| {
      OccursInPrefix(s, u, startThink, 0);
    } else if LiteralAt(u, 0, startThink) {
      assert s == u[..|startThink|][..|s|];
    }
  }

  ghost predicate ContentStays(s: string, syntax: Syntax, startThink: string, endThink: string) {
    forall u: string, isPartial: bool :: s <= u ==>
      ShownContent(s, true, syntax, startThink, endThink) <= ShownContent(u, isPartial, syntax, startThink, endThink)
  }

  /** Content shown for a partial reply is taken back by some extension iff the reply stopped inside the start tag. */
  lemma ContentStaysIff(s: string, syntax: Syntax, startThink: string, endThink: string)
    requires Extracting(syntax)
    ensures ContentStays(s, syntax, startThink, endThink) <==> !InsideStartTag(s, syntax, startThink)
  {
    if InsideStartTag(s, syntax, startThink) {
      assert ShownContent(s, true, syntax, startThink, endThink) == s;
      assert startThink[|startThink|..] == "";
      assert ShownContent(startThink, true, syntax, startThink, endThink) == "";
    } else {
      forall u: string, isPartial: bool | s <= u
        ensures ShownContent(s, true, syntax, startThink, endThink)
                <= ShownContent(u, isPartial, syntax, startThink, endThink)
      {
        ContentNeverRetracted(s, u, isPartial, syntax, startThink, endThink);
      }
    }
  }
}

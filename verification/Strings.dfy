/** String helpers of common/common.cpp: string_strip, string_ends_with, string_find_partial_stop. */
module Strings {
  import opened Base

  // ----- string_strip

  function TrimLeft(s: string): string {
    if s != [] && IsSpace(s[0]) then TrimLeft(s[1..]) else s
  }

  function TrimRight(s: string): string {
    if s != [] && IsSpace(s[|s| - 1]) then TrimRight(s[..|s| - 1]) else s
  }

  function Strip(s: string): string {
    TrimRight(TrimLeft(s))
  }

  method StringStrip(str: string) returns (r: string)
    ensures r == Strip(str)
  {
    var start, end := 0, |str|;
    while start < end && IsSpace(str[start])
      invariant start <= end
      invariant TrimLeft(str[start..]) == TrimLeft(str)
    {
      assert str[start..][1..] == str[start + 1..];
      start := start + 1;
    }
    assert str[start..end] == str[start..] == TrimLeft(str);
    while end > start && IsSpace(str[end - 1])
      invariant start <= end <= |str|
      invariant TrimRight(str[start..end]) == Strip(str)
    {
      assert str[start..end][..end - start - 1] == str[start..end - 1];
      end := end - 1;
    }
    r := str[start..end];
  }

  lemma {:induction false} TrimRightShape(s: string)
    ensures TrimRight(s) <= s
    ensures TrimRight(s) != [] ==> !IsSpace(TrimRight(s)[|TrimRight(s)| - 1])
  {
    if s != [] && IsSpace(s[|s| - 1]) {
      TrimRightShape(s[..|s| - 1]);
    }
  }

  lemma {:induction false} TrimRightKeeps(x: string, s: string)
    requires x <= s && (x != [] ==> !IsSpace(x[|x| - 1]))
    ensures x <= TrimRight(s)
  {
    if s != [] && IsSpace(s[|s| - 1]) {
      TrimRightKeeps(x, s[..|s| - 1]);
    }
  }

  lemma {:induction false} TrimLeftMonotone(p: string, s: string)
    requires p <= s
    ensures TrimLeft(p) <= TrimLeft(s)
  {
    if p != [] && IsSpace(p[0]) {
      TrimLeftMonotone(p[1..], s[1..]);
    }
  }

  /** Stripping a longer text shows at least what stripping a prefix of it showed. */
  lemma StripMonotone(p: string, s: string)
    requires p <= s
    ensures Strip(p) <= Strip(s)
  {
    TrimLeftMonotone(p, s);
    TrimRightShape(TrimLeft(p));
    TrimRightKeeps(Strip(p), TrimLeft(s));
  }

  predicate Blank(s: string) {
    forall i :: 0 <= i < |s| ==> IsSpace(s[i])
  }

  lemma {:induction false} TrimLeftAppend(a: string, t: string)
    ensures TrimLeft(a + t) == if TrimLeft(a) == "" then TrimLeft(t) else TrimLeft(a) + t
  {
    if a == [] {
      assert a + t == t;
    } else if IsSpace(a[0]) {
      assert (a + t)[1..] == a[1..] + t;
      TrimLeftAppend(a[1..], t);
    }
  }

  lemma {:induction false} TrimRightAppend(a: string, t: string)
    ensures TrimRight(a + t) == if TrimRight(t) == "" then TrimRight(a) else a + TrimRight(t)
  {
    if t == [] {
      assert a + t == a;
    } else if IsSpace(t[|t| - 1]) {
      assert (a + t)[..|a + t| - 1] == a + t[..|t| - 1];
      TrimRightAppend(a, t[..|t| - 1]);
    }
  }

  lemma {:induction false} TrimLeftBlank(s: string)
    ensures TrimLeft(s) == "" <==> Blank(s)
  {
    if s != [] && IsSpace(s[0]) {
      TrimLeftBlank(s[1..]);
      assert forall i :: 0 < i < |s| ==> s[i] == s[1..][i - 1];
    }
  }

  lemma {:induction false} TrimRightBlank(s: string)
    ensures TrimRight(s) == "" <==> Blank(s)
  {
    if s != [] && IsSpace(s[|s| - 1]) {
      TrimRightBlank(s[..|s| - 1]);
    }
  }

  lemma BlankTrims(s: string)
    ensures TrimLeft(s) == "" <==> Blank(s)
    ensures TrimRight(s) == "" <==> Blank(s)
    ensures Strip(s) == "" <==> Blank(s)
  {
    TrimLeftBlank(s);
    TrimRightBlank(s);
    TrimRightBlank(TrimLeft(s));
    TrimLeftFirst(s);
  }

  lemma {:induction false} TrimLeftFirst(s: string)
    ensures TrimLeft(s) != "" ==> !IsSpace(TrimLeft(s)[0])
  {
    if s != [] && IsSpace(s[0]) {
      TrimLeftFirst(s[1..]);
    }
  }

  /** Spaces at the end do not show; anything else there does. */
  lemma StripAppend(a: string, t: string)
    ensures Blank(t) ==> Strip(a + t) == Strip(a)
    ensures !Blank(t) ==> |Strip(a)| < |Strip(a + t)|
  {
    hide TrimLeft, TrimRight, Blank;
    BlankTrims(t);
    BlankTrims(a);
    BlankTrims(TrimLeft(a));
    TrimLeftAppend(a, t);
    TrimRightAppend(TrimLeft(a), t);
    TrimRightShape(TrimLeft(a));
    if TrimLeft(a) == "" {
      assert Strip(a + t) == Strip(t);
    }
  }

  // ----- string_find_partial_stop

  predicate StringEndsWith(str: string, suffix: string) {
    |str| >= |suffix| && str[|str| - |suffix|..] == suffix
  }

  /** The last `n` characters of the text are the first `n` of the stop word. */
  predicate Overlap(str: string, stop: string, n: nat) {
    0 < n <= |stop| && n <= |str| && str[|str| - n..] == stop[..n]
  }

  /** Where the longest suffix of the text that begins the stop word starts, among those of at most `n` characters. */
  function PartialStopUpTo(str: string, stop: string, n: nat): (r: Option<nat>)
    requires n <= |stop|
    ensures r.Some? ==> r.value < |str| && Overlap(str, stop, |str| - r.value) && |str| - r.value <= n
    ensures forall k: nat :: k <= n && Overlap(str, stop, k) ==> r.Some? && k <= |str| - r.value
  {
    if n == 0 then None
    else if Overlap(str, stop, n) then Some(|str| - n)
    else PartialStopUpTo(str, stop, n - 1)
  }

  function PartialStop(str: string, stop: string): (r: Option<nat>)
    ensures r.Some? ==> r.value < |str| && Overlap(str, stop, |str| - r.value)
    ensures forall k: nat :: Overlap(str, stop, k) ==> r.Some? && k <= |str| - r.value
  {
    PartialStopUpTo(str, stop, |stop|)
  }

  method StringFindPartialStop(str: string, stop: string) returns (r: Option<nat>)
    ensures r == PartialStop(str, stop)
  {
    if str != [] && stop != [] {
      var last := str[|str| - 1];
      var i := |stop| - 1;
      while i >= 0
        invariant -1 <= i < |stop|
        invariant PartialStop(str, stop) == PartialStopUpTo(str, stop, i + 1)
      {
        if stop[i] == last {
          var current := stop[..i + 1];
          if StringEndsWith(str, current) {
            return Some(|str| - i - 1);
          }
        } else {
          LastDiffers(str, stop, i + 1);
        }
        i := i - 1;
      }
    }
    r := None;
  }

  lemma LastDiffers(str: string, stop: string, n: nat)
    requires str != [] && 0 < n <= |stop| && stop[n - 1] != str[|str| - 1]
    ensures !Overlap(str, stop, n)
  {
    if n <= |str| {
      assert str[|str| - n..][n - 1] == str[|str| - 1] && stop[..n][n - 1] == stop[n - 1];
    }
  }
}

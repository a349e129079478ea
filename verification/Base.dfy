/** Small definitions shared by the other modules. */
module Base {

  datatype Option<+T> = None | Some(value: T)

  /** The largest index of `s` that holds a character of `chars` (std::string::find_last_of). */
  function LastIndexOf(s: string, chars: string): (r: Option<nat>)
    ensures r.Some? ==> r.value < |s| && s[r.value] in chars
    ensures r.Some? ==> forall k :: r.value < k < |s| ==> s[k] !in chars
    ensures r.None? ==> forall k :: 0 <= k < |s| ==> s[k] !in chars
  {
    if s == [] then None
    else if s[|s| - 1] in chars then Some(|s| - 1)
    else LastIndexOf(s[..|s| - 1], chars)
  }

  /** The largest index of `s` that holds no character of `chars` (std::string::find_last_not_of). */
  function LastIndexNotOf(s: string, chars: string): (r: Option<nat>)
    ensures r.Some? ==> r.value < |s| && s[r.value] !in chars
    ensures r.Some? ==> forall k :: r.value < k < |s| ==> s[k] in chars
    ensures r.None? ==> forall k :: 0 <= k < |s| ==> s[k] in chars
  {
    if s == [] then None
    else if s[|s| - 1] !in chars then Some(|s| - 1)
    else LastIndexNotOf(s[..|s| - 1], chars)
  }

  /** std::isspace in the "C" locale. */
  predicate IsSpace(c: char) {
    c == ' ' || 9 <= c as int <= 13
  }

  predicate IsDigit(c: char) {
    '0' <= c <= '9'
  }

  /** The value of a hexadecimal digit. */
  function HexValue(c: char): Option<nat> {
    if '0' <= c <= '9' then Some((c as int - '0' as int) as nat)
    else if 'a' <= c <= 'f' then Some((c as int - 'a' as int + 10) as nat)
    else if 'A' <= c <= 'F' then Some((c as int - 'A' as int + 10) as nat)
    else None
  }

  predicate Occurs(s: string, p: string, i: nat) {
    i + |p| <= |s| && s[i..i + |p|] == p
  }

  lemma OccursRoom(s: string, p: string, i: nat)
    requires Occurs(s, p, i)
    ensures i + |p| <= |s|
  {
  }

  /** The first index not below `from` where `p` occurs (std::string::find). */
  function Find(s: string, p: string, from: nat): (r: Option<nat>)
    ensures r.Some? ==> from <= r.value && Occurs(s, p, r.value)
    ensures forall k: nat :: from <= k && (r.Some? ==> k < r.value) ==> !Occurs(s, p, k)
    decreases |s| - from
  {
    if from + |p| > |s| then None
    else if Occurs(s, p, from) then Some(from)
    else Find(s, p, from + 1)
  }

  predicate Contains(s: string, p: string) {
    Find(s, p, 0).Some?
  }
}

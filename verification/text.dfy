/** The string primitives the components rely on: `toLowerCase`, `trim`,
    `includes`, `startsWith`, and JavaScript truthiness of an optional
    string (`if (token)`, `a || b`). Characters are treated as ASCII: the
    full Unicode case mapping and whitespace class are not modelled. */
module Text {
  import opened Wrappers

  /** The whitespace `String.prototype.trim` removes, restricted to ASCII:
      space, tab, line feed, vertical tab, form feed, carriage return. */
  predicate IsSpace(c: char) {
    c == ' ' || c == '\t' || c == '\n' || c == '\U{000B}' || c == '\U{000C}' || c == '\r'
  }

  /** A string `trim` reduces to the empty string. */
  predicate IsBlank(s: string) {
    forall i :: 0 <= i < |s| ==> IsSpace(s[i])
  }

  /** ASCII lower-casing of one character. */
  function Lower(c: char): (r: char)
    ensures 'A' <= c <= 'Z' ==> 'a' <= r <= 'z'
    ensures !('A' <= c <= 'Z') ==> r == c
  {
    if 'A' <= c <= 'Z' then (c as int + 32) as char else c
  }

  /** `s.toLowerCase()`, character by character. */
  function LowerString(s: string): (r: string)
    ensures |r| == |s|
    ensures forall i :: 0 <= i < |s| ==> r[i] == Lower(s[i])
  {
    seq(|s|, i requires 0 <= i < |s| => Lower(s[i]))
  }

  /** Drops leading whitespace. */
  function TrimStart(s: string): (r: string)
    ensures |r| <= |s| && r == s[|s| - |r|..]
    ensures forall i :: 0 <= i < |s| - |r| ==> IsSpace(s[i])
    ensures |r| > 0 ==> !IsSpace(r[0])
  {
    if |s| > 0 && IsSpace(s[0]) then TrimStart(s[1..]) else s
  }

  /** Drops trailing whitespace. */
  function TrimEnd(s: string): (r: string)
    ensures |r| <= |s| && r == s[..|r|]
    ensures forall i :: |r| <= i < |s| ==> IsSpace(s[i])
    ensures |r| > 0 ==> !IsSpace(r[|r| - 1])
  {
    if |s| > 0 && IsSpace(s[|s| - 1]) then TrimEnd(s[..|s| - 1]) else s
  }

  /** `s.trim()`: what is left of `s` once the whitespace before and after
      it is cut off; nothing else is removed, the result neither starts nor
      ends with whitespace, and it is empty exactly when `s` is blank. */
  function Trim(s: string): (r: string)
    ensures exists i :: InfixAt(s, r, i) && IsBlank(s[..i]) && IsBlank(s[i + |r|..])
    ensures |r| > 0 ==> !IsSpace(r[0]) && !IsSpace(r[|r| - 1])
    ensures r == "" <==> IsBlank(s)
  {
    var front := TrimStart(s);
    var r := TrimEnd(front);
    TrimSplit(s, front, r);
    r
  }

  /** Where the trimmed text sits in the original: after the whitespace
      `TrimStart` dropped, and followed only by whitespace. */
  lemma TrimSplit(s: string, front: string, r: string)
    requires |front| <= |s| && front == s[|s| - |front|..]
    requires forall j :: 0 <= j < |s| - |front| ==> IsSpace(s[j])
    requires |r| <= |front| && r == front[..|r|]
    requires forall j :: |r| <= j < |front| ==> IsSpace(front[j])
    ensures var i := |s| - |front|;
      InfixAt(s, r, i) && IsBlank(s[..i]) && IsBlank(s[i + |r|..])
  {
    var i := |s| - |front|;
    assert front == s[i..] && r == front[..|r|];
    assert s[i..i + |r|] == s[i..][..|r|];
    assert InfixAt(s, r, i);
    BlankPrefix(s, i);
    BlankSuffix(front, |r|);
    assert s[i + |r|..] == s[i..][|r|..];
  }

  /** The first `i` characters are whitespace. */
  lemma BlankPrefix(s: string, i: nat)
    requires i <= |s|
    requires forall j :: 0 <= j < i ==> IsSpace(s[j])
    ensures IsBlank(s[..i])
  {
  }

  /** The characters from `k` on are whitespace. */
  lemma BlankSuffix(s: string, k: nat)
    requires k <= |s|
    requires forall j :: k <= j < |s| ==> IsSpace(s[j])
    ensures IsBlank(s[k..])
  {
  }

  /** Trimming a trimmed string changes nothing. */
  lemma {:induction false} TrimIdempotent(s: string)
    ensures Trim(Trim(s)) == Trim(s)
  {
    var r := Trim(s);
    TrimmedIsFixed(r);
  }

  /** A string that neither starts nor ends with whitespace is its own
      trim. */
  lemma TrimmedIsFixed(s: string)
    requires |s| > 0 ==> !IsSpace(s[0]) && !IsSpace(s[|s| - 1])
    ensures Trim(s) == s
  {
    var r := Trim(s);
    if |s| > 0 {
      var i :| InfixAt(s, r, i) && IsBlank(s[..i]) && IsBlank(s[i + |r|..]);
      assert s[0..|r|] == s;
    }
  }

  /** `needle` occurs in `hay` starting at position `i`. */
  ghost predicate InfixAt(hay: string, needle: string, i: int) {
    0 <= i && i + |needle| <= |hay| && hay[i..i + |needle|] == needle
  }

  /** `hay.includes(needle)`. */
  function Contains(hay: string, needle: string): (b: bool)
    ensures b <==> exists i :: InfixAt(hay, needle, i)
    decreases |hay|
  {
    if |needle| > |hay| then false
    else if hay[..|needle|] == needle then
      assert InfixAt(hay, needle, 0);
      true
    else
      var b := Contains(hay[1..], needle);
      ShiftInfix(hay, needle);
      b
  }

  /** An occurrence past the first position is an occurrence in the tail. */
  lemma ShiftInfix(hay: string, needle: string)
    requires |hay| > 0
    requires !InfixAt(hay, needle, 0)
    ensures (exists i :: InfixAt(hay, needle, i)) <==> (exists i :: InfixAt(hay[1..], needle, i))
  {
    forall i | InfixAt(hay, needle, i)
      ensures InfixAt(hay[1..], needle, i - 1)
    {
      assert hay[1..][i - 1..i - 1 + |needle|] == hay[i..i + |needle|];
    }
    forall i | InfixAt(hay[1..], needle, i)
      ensures InfixAt(hay, needle, i + 1)
    {
      assert hay[1..][i..i + |needle|] == hay[i + 1..i + 1 + |needle|];
    }
  }

  /** `s.startsWith(prefix)`: `s` is at least as long as `prefix` and
      agrees with it character by character. */
  function StartsWith(s: string, prefix: string): (b: bool)
    ensures b <==> |prefix| <= |s| && forall i :: 0 <= i < |prefix| ==> s[i] == prefix[i]
  {
    |prefix| <= |s| && s[..|prefix|] == prefix
  }

  /** A string that starts with a prefix also contains it. */
  lemma StartsWithContains(s: string, prefix: string)
    requires StartsWith(s, prefix)
    ensures Contains(s, prefix)
  {
    assert InfixAt(s, prefix, 0);
  }

  /** JavaScript truthiness of a value that is a string or null/undefined:
      present and non-empty. */
  predicate Truthy(o: Option<string>) {
    o.Some? && o.value != ""
  }

  /** `a || b` where `a` may be null/undefined or empty. */
  function Or(a: Option<string>, b: string): (r: string)
    ensures Truthy(a) ==> r == a.value
    ensures !Truthy(a) ==> r == b
  {
    if Truthy(a) then a.value else b
  }

  /** The empty query is found in every string, so an empty search box
      filters nothing out. */
  lemma EmptyNeedleFound(hay: string)
    ensures Contains(hay, "")
  {
    assert InfixAt(hay, "", 0);
  }

}

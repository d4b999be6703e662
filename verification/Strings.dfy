// The parts of Go's strings package that decide something in the models.
module Strings {

  /** unicode.IsSpace. */
  predicate IsSpace(c: char) {
    '\t' <= c <= '\r' || c == ' ' || c == '\U{85}' || c == '\U{A0}' || c == '\U{1680}' || '\U{2000}' <= c <= '\U{200A}'
    || c == '\U{2028}' || c == '\U{2029}' || c == '\U{202F}' || c == '\U{205F}' || c == '\U{3000}'
  }

  function TrimLeft(s: string): string {
    if s != "" && IsSpace(s[0]) then TrimLeft(s[1..]) else s
  }

  function TrimRight(s: string): string {
    if s != "" && IsSpace(s[|s| - 1]) then TrimRight(s[..|s| - 1]) else s
  }

  function TrimSpace(s: string): string {
    TrimRight(TrimLeft(s))
  }

  /** Trimming cuts white space off both ends, and all of it. */
  lemma TrimSpaceCuts(s: string) returns (a: nat, b: nat)
    ensures a <= b <= |s| && TrimSpace(s) == s[a..b]
    ensures forall k :: 0 <= k < a || b <= k < |s| ==> IsSpace(s[k])
    ensures a < b ==> !IsSpace(s[a]) && !IsSpace(s[b - 1])
  {
    a := TrimLeftCuts(s);
    var n := TrimRightCuts(s[a..]);
    b := a + n;
    assert s[a..][..n] == s[a..b];
    assert forall k :: n <= k < |s| - a ==> IsSpace(s[a..][k]) && s[a..][k] == s[a + k];
    forall k | b <= k < |s| ensures IsSpace(s[k]) {
      assert s[k] == s[a..][k - a];
    }
  }

  lemma {:induction false} TrimLeftCuts(s: string) returns (a: nat)
    ensures a <= |s| && TrimLeft(s) == s[a..] && (forall k :: 0 <= k < a ==> IsSpace(s[k])) && (a < |s| ==> !IsSpace(s[a]))
  {
    if s != "" && IsSpace(s[0]) {
      var n := TrimLeftCuts(s[1..]);
      a := n + 1;
      assert s[1..][n..] == s[a..];
      assert forall k :: 0 < k < a ==> s[k] == s[1..][k - 1];
    } else {
      a := 0;
    }
  }

  lemma {:induction false} TrimRightCuts(s: string) returns (b: nat)
    ensures b <= |s| && TrimRight(s) == s[..b] && (forall k :: b <= k < |s| ==> IsSpace(s[k])) && (0 < b ==> !IsSpace(s[b - 1]))
  {
    if s != "" && IsSpace(s[|s| - 1]) {
      b := TrimRightCuts(s[..|s| - 1]);
      assert s[..|s| - 1][..b] == s[..b];
    } else {
      b := |s|;
    }
  }

  /** Nothing is left exactly of a text that is all white space. */
  lemma TrimsToNothingIff(s: string)
    ensures TrimSpace(s) == "" <==> forall k :: 0 <= k < |s| ==> IsSpace(s[k])
  {
    var a, b := TrimSpaceCuts(s);
  }

  /** The characters of s other than c. */
  function Without(s: string, c: char): string {
    if s == "" then "" else if s[0] == c then Without(s[1..], c) else [s[0]] + Without(s[1..], c)
  }

  /** Lower case as far as comparison with ASCII words can tell: only the Kelvin
      sign and dotted capital I map into ASCII from outside. */
  function LowerChar(c: char): char {
    if 'A' <= c <= 'Z' then (c as int - 'A' as int + 'a' as int) as char
    else if c == '\U{212A}' then 'k'
    else if c == '\U{130}' then 'i'
    else c
  }

  function LowerAscii(s: string): string {
    if s == "" then "" else [LowerChar(s[0])] + LowerAscii(s[1..])
  }
}

/** The string operations that the handlers apply to what a visitor types. */
module Text {
  predicate IsSpace(c: char) {
    || c == ' ' || '\t' <= c <= '\r' || c == '\U{A0}' || c == '\U{1680}' || '\U{2000}' <= c <= '\U{200A}'
    || c == '\U{2028}' || c == '\U{2029}' || c == '\U{202F}' || c == '\U{205F}' || c == '\U{3000}' || c == '\U{FEFF}'
  }

  function TrimStart(s: string): string {
    if s != [] && IsSpace(s[0]) then TrimStart(s[1..]) else s
  }

  function TrimEnd(s: string): string {
    if s != [] && IsSpace(s[|s| - 1]) then TrimEnd(s[..|s| - 1]) else s
  }

  function Trim(s: string): string {
    TrimEnd(TrimStart(s))
  }

  /** A part of the text with nothing but spaces before and after it. */
  ghost predicate SpacesAround(s: string, t: string, i: nat) {
    && i + |t| <= |s| && s[i..i + |t|] == t
    && forall k :: 0 <= k < i || i + |t| <= k < |s| ==> IsSpace(s[k])
  }

  lemma {:induction false} TrimStartCuts(s: string) returns (i: nat)
    ensures TrimStart(s) != "" ==> !IsSpace(TrimStart(s)[0])
    ensures i <= |s| && TrimStart(s) == s[i..] && forall k :: 0 <= k < i ==> IsSpace(s[k])
  {
    i := 0;
    if s != [] && IsSpace(s[0]) {
      i := TrimStartCuts(s[1..]);
      assert s[1..][i..] == s[i + 1..];
      assert forall k :: 0 < k < i + 1 ==> s[k] == s[1..][k - 1];
      i := i + 1;
    }
  }

  lemma {:induction false} TrimEndCuts(s: string)
    ensures TrimEnd(s) != "" ==> !IsSpace(TrimEnd(s)[|TrimEnd(s)| - 1])
    ensures TrimEnd(s) <= s && forall k :: |TrimEnd(s)| <= k < |s| ==> IsSpace(s[k])
  {
    if s != [] && IsSpace(s[|s| - 1]) {
      TrimEndCuts(s[..|s| - 1]);
    }
  }

  /** Trimming takes exactly the spaces at both ends: only spaces go, and what is left has none there. */
  lemma TrimExactly(s: string)
    ensures var t := Trim(s);
      (exists i :: SpacesAround(s, t, i)) && (t != "" ==> !IsSpace(t[0]) && !IsSpace(t[|t| - 1]))
  {
    var i := TrimStartCuts(s);
    var front, t := TrimStart(s), Trim(s);
    TrimEndCuts(front);
    assert s[i..i + |t|] == front[..|t|];
    assert forall k :: i + |t| <= k < |s| ==> s[k] == front[k - i];
    assert SpacesAround(s, t, i);
  }
}

/** White space at the ends of texts, which nearly every input loses first. */
module Text {

  /** Unicode White_Space, which strings.TrimSpace removes at both ends. */
  predicate IsSpace(c: char) {
    || '\t' <= c <= '\r' || c == ' ' || c == '\U{85}' || c == '\U{A0}'
    || c == '\U{1680}' || '\U{2000}' <= c <= '\U{200A}'
    || c == '\U{2028}' || c == '\U{2029}' || c == '\U{202F}' || c == '\U{205F}' || c == '\U{3000}'
  }

  function TrimSpace(s: string): (t: string)
    ensures t != "" ==> !IsSpace(t[0]) && !IsSpace(t[|t| - 1])
    decreases |s|
  {
    if s == "" then ""
    else if IsSpace(s[0]) then TrimSpace(s[1..])
    else if IsSpace(s[|s| - 1]) then TrimSpace(s[..|s| - 1])
    else s
  }

  /** s from i to j is what trimming leaves, and the rest is white space. */
  ghost predicate TrimsTo(s: string, i: nat, j: nat) {
    && i <= j <= |s| && TrimSpace(s) == s[i..j]
    && forall k :: 0 <= k < i || j <= k < |s| ==> IsSpace(s[k])
  }

  lemma TrimFront(s: string, i: nat, j: nat)
    requires s != "" && IsSpace(s[0]) && TrimsTo(s[1..], i, j)
    ensures TrimsTo(s, i + 1, j + 1)
  {
    assert s[1..][i..j] == s[i + 1..j + 1];
    assert forall k :: 1 <= k < |s| ==> s[k] == s[1..][k - 1];
  }

  lemma TrimBack(s: string, i: nat, j: nat)
    requires s != "" && !IsSpace(s[0]) && IsSpace(s[|s| - 1]) && TrimsTo(s[..|s| - 1], i, j)
    ensures TrimsTo(s, i, j)
  {
    assert s[..|s| - 1][i..j] == s[i..j];
    assert forall k :: 0 <= k < |s| - 1 ==> s[k] == s[..|s| - 1][k];
  }

  /** Trimming removes white space at the two ends and nothing else. */
  lemma {:induction false} TrimSpaceRemovesSpace(s: string) returns (i: nat, j: nat)
    ensures i <= j <= |s| && TrimSpace(s) == s[i..j]
    ensures forall k :: 0 <= k < i || j <= k < |s| ==> IsSpace(s[k])
    decreases |s|
  {
    if s != "" && IsSpace(s[0]) {
      i, j := TrimSpaceRemovesSpace(s[1..]);
      TrimFront(s, i, j);
      i, j := i + 1, j + 1;
    } else if s != "" && IsSpace(s[|s| - 1]) {
      i, j := TrimSpaceRemovesSpace(s[..|s| - 1]);
      TrimBack(s, i, j);
    } else {
      i, j := 0, |s|;
    }
  }
}

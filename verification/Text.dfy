/** The string functions of Go's standard library that the models use. */
module Text {

  predicate HasAt(s: string, pat: string, i: nat) {
    i + |pat| <= |s| && forall j :: 0 <= j < |pat| ==> s[i + j] == pat[j]
  }

  ghost predicate NoneIn(s: string, pat: string, i: nat, j: nat) {
    forall k: nat :: i <= k < j ==> !HasAt(s, pat, k)
  }

  /** strings.Index from position i on: the least occurrence of pat, or |s| when there is none. */
  function Find(s: string, pat: string, i: nat): (r: nat)
    requires pat != "" && i <= |s|
    ensures i <= r <= |s| && (r < |s| ==> r + |pat| <= |s|)
    decreases |s| - i
  {
    if i == |s| || HasAt(s, pat, i) then i else Find(s, pat, i + 1)
  }

  lemma {:induction false} FindSound(s: string, pat: string, i: nat)
    requires pat != "" && i <= |s|
    ensures NoneIn(s, pat, i, Find(s, pat, i))
    ensures Find(s, pat, i) < |s| ==> HasAt(s, pat, Find(s, pat, i))
    decreases |s| - i
  {
    if i < |s| && !HasAt(s, pat, i) {
      FindSound(s, pat, i + 1);
    }
  }

  lemma FindIs(s: string, pat: string, i: nat, r: nat)
    requires pat != "" && i <= r <= |s| && (r < |s| ==> HasAt(s, pat, r)) && NoneIn(s, pat, i, r)
    ensures Find(s, pat, i) == r
  {
    FindSound(s, pat, i);
  }

  /** unicode.IsSpace */
  predicate IsSpace(c: char) {
    || c == '\t' || c == '\n' || c == '\U{0B}' || c == '\U{0C}' || c == '\r' || c == ' '
    || c == '\U{85}' || c == '\U{A0}' || c == '\U{1680}' || '\U{2000}' <= c <= '\U{200A}'
    || c == '\U{2028}' || c == '\U{2029}' || c == '\U{202F}' || c == '\U{205F}' || c == '\U{3000}'
  }

  /** The first position from i on that holds no white space. */
  function SkipSpace(s: string, i: nat): (r: nat)
    requires i <= |s|
    ensures i <= r <= |s|
    decreases |s| - i
  {
    if i < |s| && IsSpace(s[i]) then SkipSpace(s, i + 1) else i
  }

  /** The position after the last one in s[i..j] that holds no white space. */
  function DropSpace(s: string, i: nat, j: nat): (r: nat)
    requires i <= j <= |s|
    ensures i <= r <= j
    decreases j
  {
    if i < j && IsSpace(s[j - 1]) then DropSpace(s, i, j - 1) else j
  }

  /** strings.TrimSpace */
  function Trim(s: string): string {
    var start := SkipSpace(s, 0);
    s[start..DropSpace(s, start, |s|)]
  }

  predicate Trimmed(s: string) {
    s == "" || (!IsSpace(s[0]) && !IsSpace(s[|s| - 1]))
  }

  lemma {:induction false} SkipSpaceSound(s: string, i: nat)
    requires i <= |s|
    ensures var r := SkipSpace(s, i); (r < |s| ==> !IsSpace(s[r])) && forall k :: i <= k < r ==> IsSpace(s[k])
    decreases |s| - i
  {
    if i < |s| && IsSpace(s[i]) {
      SkipSpaceSound(s, i + 1);
    }
  }

  lemma {:induction false} DropSpaceSound(s: string, i: nat, j: nat)
    requires i <= j <= |s|
    ensures var r := DropSpace(s, i, j); (i < r ==> !IsSpace(s[r - 1])) && forall k :: r <= k < j ==> IsSpace(s[k])
    decreases j
  {
    if i < j && IsSpace(s[j - 1]) {
      DropSpaceSound(s, i, j - 1);
    }
  }

  lemma TrimSound(s: string)
    ensures Trimmed(Trim(s))
    ensures forall c :: c in Trim(s) ==> c in s
    ensures Trimmed(s) ==> Trim(s) == s
  {
    var start := SkipSpace(s, 0);
    var end := DropSpace(s, start, |s|);
    SkipSpaceSound(s, 0);
    DropSpaceSound(s, start, |s|);
    assert forall k :: 0 <= k < end - start ==> Trim(s)[k] == s[start + k];
    if Trimmed(s) && s != "" {
      assert start == 0 && end == |s|;
    }
  }

  predicate Contains(s: string, pat: string) {
    exists i: nat :: i <= |s| && HasAt(s, pat, i)
  }
}

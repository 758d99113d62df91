/** Go's and JavaScript's notions of blank characters, and trimming. */
module Text {

  /** unicode.IsSpace: what strings.TrimSpace removes. */
  predicate IsSpace(c: char) {
    || '\t' <= c <= '\r' || c == ' ' || c == '\U{85}' || c == '\U{A0}' || c == '\U{1680}'
    || '\U{2000}' <= c <= '\U{200A}' || c == '\U{2028}' || c == '\U{2029}' || c == '\U{202F}' || c == '\U{205F}'
    || c == '\U{3000}'
  }

  /** unicode.IsControl. */
  predicate IsControl(c: char) {
    c <= '\U{1F}' || '\U{7F}' <= c <= '\U{9F}'
  }

  /** The end of trimming from the left: nothing blank in front. */
  function TrimLeft(s: string, blank: char -> bool): (t: string)
    ensures |t| <= |s| && t == s[|s| - |t|..]
    ensures t != [] ==> !blank(t[0])
    ensures forall k :: 0 <= k < |s| - |t| ==> blank(s[k])
  {
    if s == [] || !blank(s[0]) then s else TrimLeft(s[1..], blank)
  }

  function TrimRight(s: string, blank: char -> bool): (t: string)
    ensures |t| <= |s| && t == s[..|t|]
    ensures t != [] ==> !blank(t[|t| - 1])
    ensures forall k :: |t| <= k < |s| ==> blank(s[k])
  {
    if s == [] || !blank(s[|s| - 1]) then s else TrimRight(s[..|s| - 1], blank)
  }

  /** strings.TrimSpace. */
  function TrimSpace(s: string): (t: string)
    ensures Trimmed(t)
  {
    TrimRight(TrimLeft(s, IsSpace), IsSpace)
  }

  predicate Trimmed(s: string) {
    s != [] ==> !IsSpace(s[0]) && !IsSpace(s[|s| - 1])
  }

  lemma TrimmedIsFixed(s: string)
    requires Trimmed(s)
    ensures TrimSpace(s) == s
  {
  }

  /** Trimming twice is trimming once. */
  lemma TrimSpaceTwice(s: string)
    ensures TrimSpace(TrimSpace(s)) == TrimSpace(s)
  {
    TrimmedIsFixed(TrimSpace(s));
  }

  predicate IsBlankText(s: string) {
    forall k :: 0 <= k < |s| ==> IsSpace(s[k])
  }

  /** Trimming yields nothing exactly for a blank string. */
  lemma TrimSpaceEmptyIff(s: string)
    ensures TrimSpace(s) == "" <==> IsBlankText(s)
  {
    var l := TrimLeft(s, IsSpace);
    if TrimSpace(s) == "" {
      assert l == [];
    } else if l != [] {
      assert s[|s| - |l|] == l[0];
    }
  }

  /** `t` is `s` without the blanks around it. */
  ghost predicate IsTrimOf(t: string, s: string) {
    Trimmed(t) && exists i, j :: IsCore(s, i, j) && t == s[i..j]
  }

  ghost predicate IsCore(s: string, i: int, j: int) {
    0 <= i <= j <= |s| && forall k :: 0 <= k < |s| && !(i <= k < j) ==> IsSpace(s[k])
  }

  lemma TrimSpaceTrims(s: string)
    ensures IsTrimOf(TrimSpace(s), s)
  {
    hide IsSpace, IsCore;
    var l := TrimLeft(s, IsSpace);
    CoreLeft(s, l, TrimRight(l, IsSpace));
  }

  lemma CoreLeft(s: string, l: string, t: string)
    requires |l| <= |s| && l == s[|s| - |l|..] && forall k :: 0 <= k < |s| - |l| ==> IsSpace(s[k])
    requires |t| <= |l| && t == l[..|t|] && forall k :: |t| <= k < |l| ==> IsSpace(l[k])
    ensures IsCore(s, |s| - |l|, |s| - |l| + |t|) && t == s[|s| - |l|..|s| - |l| + |t|]
  {
    hide IsSpace;
    var i := |s| - |l|;
    forall k | 0 <= k < |s| && !(i <= k < i + |t|) ensures IsSpace(s[k]) {
      if k >= i { assert s[k] == l[k - i]; }
    }
  }

  /** The name pattern of profiles and providers: ^[a-z][a-z0-9-]*$. */
  predicate IsSlug(s: string) {
    s != "" && 'a' <= s[0] <= 'z' && forall k :: 0 <= k < |s| ==> IsSlugChar(s[k])
  }

  predicate IsSlugChar(c: char) {
    'a' <= c <= 'z' || '0' <= c <= '9' || c == '-'
  }

  lemma SlugIsTrimmed(s: string)
    requires IsSlug(s)
    ensures Trimmed(s) && TrimSpace(s) == s
  {
    assert IsSlugChar(s[|s| - 1]);
    TrimmedIsFixed(s);
  }
}

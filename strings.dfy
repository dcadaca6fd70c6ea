/** `strings.TrimSpace`, with white space as Go's `unicode.IsSpace` defines it. */
module Strings {

  /** `unicode.IsSpace`: '\t', '\n', '\v', '\f', '\r', ' ', U+0085 and U+00A0 in
      Latin-1, and beyond it the Unicode White_Space property. */
  predicate IsSpace(c: char) {
    || c == '\t' || c == '\n' || c == '\U{000B}' || c == '\U{000C}' || c == '\r' || c == ' '
    || c == '\U{0085}' || c == '\U{00A0}' || c == '\U{1680}'
    || ('\U{2000}' <= c <= '\U{200A}')
    || c == '\U{2028}' || c == '\U{2029}' || c == '\U{202F}' || c == '\U{205F}' || c == '\U{3000}'
  }

  predicate AllSpace(s: string) {
    forall i :: 0 <= i < |s| ==> IsSpace(s[i])
  }

  /** No white space at either end. */
  predicate Trimmed(s: string) {
    s == [] || (!IsSpace(s[0]) && !IsSpace(s[|s| - 1]))
  }

  /** The index of the first character at or after `i` that is not white space
      (`|s|` when there is none): the forward scan of `strings.TrimSpace`. */
  function SkipSpace(s: string, i: nat): (k: nat)
    requires i <= |s|
    ensures i <= k <= |s|
    ensures forall j :: i <= j < k ==> IsSpace(s[j])
    ensures k < |s| ==> !IsSpace(s[k])
    decreases |s| - i
  {
    if i < |s| && IsSpace(s[i]) then SkipSpace(s, i + 1) else i
  }

  /** The end of `s[lo..hi]` once its trailing white space is dropped: the
      backward scan of `strings.TrimSpace`, which stops at `lo`. */
  function SkipSpaceBack(s: string, lo: nat, hi: nat): (k: nat)
    requires lo <= hi <= |s|
    ensures lo <= k <= hi
    ensures forall j :: k <= j < hi ==> IsSpace(s[j])
    ensures lo < k ==> !IsSpace(s[k - 1])
    decreases hi
  {
    if lo < hi && IsSpace(s[hi - 1]) then SkipSpaceBack(s, lo, hi - 1) else hi
  }

  /** `strings.TrimSpace`: the slice of `s` left when leading and trailing white
      space are removed. It has no white space at either end, and everything
      removed from either end is white space. */
  function TrimSpace(s: string): (r: string)
    ensures Trimmed(r)
    ensures var i := SkipSpace(s, 0);
            && i + |r| <= |s| && r == s[i..i + |r|]
            && (forall k :: 0 <= k < i ==> IsSpace(s[k]))
            && (forall k :: i + |r| <= k < |s| ==> IsSpace(s[k]))
  {
    var i := SkipSpace(s, 0);
    s[i..SkipSpaceBack(s, i, |s|)]
  }

  /** Trimming leaves nothing exactly when the text is all white space. */
  lemma TrimSpaceEmpty(s: string)
    ensures TrimSpace(s) == [] <==> AllSpace(s)
  {
    var i := SkipSpace(s, 0);
    if AllSpace(s) {
      assert i == |s|;
    }
  }

  /** A string with no white space at either end is left unchanged. */
  lemma TrimSpaceOfTrimmed(s: string)
    requires Trimmed(s)
    ensures TrimSpace(s) == s
  {
  }

  /** Trimming twice is trimming once. */
  lemma TrimSpaceIdempotent(s: string)
    ensures TrimSpace(TrimSpace(s)) == TrimSpace(s)
  {
    TrimSpaceOfTrimmed(TrimSpace(s));
  }

  /** White space added at the ends is removed again. */
  lemma TrimSpacePadding(pre: string, s: string, post: string)
    requires AllSpace(pre) && AllSpace(post) && Trimmed(s)
    ensures TrimSpace(pre + s + post) == s
  {
    var t := pre + s + post;
    if s == [] {
      assert AllSpace(t) by {
        forall k | 0 <= k < |t| ensures IsSpace(t[k]) {
          if k < |pre| { assert t[k] == pre[k]; } else { assert t[k] == post[k - |pre|]; }
        }
      }
      TrimSpaceEmpty(t);
    } else {
      var r := TrimSpace(t);
      var i := SkipSpace(t, 0);
      var e := i + |r|;
      assert forall k :: 0 <= k < |pre| ==> t[k] == pre[k];
      assert forall k :: 0 <= k < |post| ==> t[|pre| + |s| + k] == post[k];
      assert t[|pre|] == s[0] && t[|pre| + |s| - 1] == s[|s| - 1];
      assert i == |pre|;
      TrimSpaceEmpty(t);
      assert r != [];
      assert r[|r| - 1] == t[e - 1];
      assert e == |pre| + |s|;
      assert t[|pre|..|pre| + |s|] == s;
    }
  }
}

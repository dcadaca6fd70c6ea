/** `regexp.MustCompile(`[^\d]`).ReplaceAllString(s, "")`: every character that
    RE2's `\d` (ASCII '0'..'9') does not match is deleted. */
module Regexp {
  import opened Strconv

  function StripNonDigits(s: string): (r: string)
    ensures AllDigits(r)
    ensures |r| <= |s|
  {
    if s == [] then []
    else
      var last := s[|s| - 1];
      StripNonDigits(s[..|s| - 1]) + (if IsDigit(last) then [last] else [])
  }

  /** Stripping distributes over concatenation: each part keeps its own digits, in order. */
  lemma {:induction false} StripConcat(a: string, b: string)
    ensures StripNonDigits(a + b) == StripNonDigits(a) + StripNonDigits(b)
    decreases |b|
  {
    if b != [] {
      assert (a + b)[..|a + b| - 1] == a + b[..|b| - 1];
      StripConcat(a, b[..|b| - 1]);
    } else {
      assert a + b == a;
    }
  }

  /** A string of digits alone is left as it is. */
  lemma {:induction false} StripDigits(s: string)
    requires AllDigits(s)
    ensures StripNonDigits(s) == s
  {
    if s != [] {
      StripDigits(s[..|s| - 1]);
    }
  }

  /** Stripping twice is stripping once. */
  lemma StripIdempotent(s: string)
    ensures StripNonDigits(StripNonDigits(s)) == StripNonDigits(s)
  {
    StripDigits(StripNonDigits(s));
  }

  /** A string without digits strips to "". */
  lemma {:induction false} StripNoDigits(s: string)
    requires forall i :: 0 <= i < |s| ==> !IsDigit(s[i])
    ensures StripNonDigits(s) == []
  {
    if s != [] {
      StripNoDigits(s[..|s| - 1]);
    }
  }

  /** The positions of the digits of `s`, in increasing order. */
  function DigitPositions(s: string): seq<nat> {
    if s == [] then []
    else DigitPositions(s[..|s| - 1]) + (if IsDigit(s[|s| - 1]) then [|s| - 1] else [])
  }

  lemma {:induction false} DigitPositionsLength(s: string)
    ensures |DigitPositions(s)| == |StripNonDigits(s)|
  {
    if s != [] {
      DigitPositionsLength(s[..|s| - 1]);
    }
  }

  lemma {:induction false} DigitPositionsPick(s: string)
    ensures |DigitPositions(s)| == |StripNonDigits(s)|
    ensures forall k :: 0 <= k < |DigitPositions(s)| ==>
              DigitPositions(s)[k] < |s| && StripNonDigits(s)[k] == s[DigitPositions(s)[k]]
  {
    DigitPositionsLength(s);
    if s != [] {
      var n := |s| - 1;
      var init := s[..n];
      DigitPositionsPick(init);
      DigitPositionsLength(init);
      var prev, r := DigitPositions(init), StripNonDigits(init);
      forall k | 0 <= k < |DigitPositions(s)|
        ensures DigitPositions(s)[k] < |s| && StripNonDigits(s)[k] == s[DigitPositions(s)[k]]
      {
        if k < |prev| {
          assert DigitPositions(s)[k] == prev[k];
          assert StripNonDigits(s)[k] == r[k];
          assert init[prev[k]] == s[prev[k]];
        } else {
          assert DigitPositions(s)[k] == n;
        }
      }
    }
  }

  lemma {:induction false} DigitPositionsIncreasing(s: string)
    ensures forall j, k :: 0 <= j < k < |DigitPositions(s)| ==> DigitPositions(s)[j] < DigitPositions(s)[k]
  {
    if s != [] {
      var init := s[..|s| - 1];
      DigitPositionsIncreasing(init);
      DigitPositionsPick(init);
    }
  }

  lemma {:induction false} DigitPositionsCover(s: string)
    ensures forall p :: 0 <= p < |s| && IsDigit(s[p]) ==> p in DigitPositions(s)
  {
    if s != [] {
      var n := |s| - 1;
      var init := s[..n];
      DigitPositionsCover(init);
      forall p | 0 <= p < |s| && IsDigit(s[p])
        ensures p in DigitPositions(s)
      {
        if p < n {
          assert init[p] == s[p];
          assert p in DigitPositions(init);
        }
      }
    }
  }

  /** The result is exactly the digit characters of `s`, in order: it picks the
      positions `idx` of `s`, strictly increasing, and every digit position of
      `s` is among them. */
  lemma StripPositions(s: string) returns (idx: seq<nat>)
    ensures |idx| == |StripNonDigits(s)|
    ensures forall k :: 0 <= k < |idx| ==> idx[k] < |s| && StripNonDigits(s)[k] == s[idx[k]]
    ensures forall j, k :: 0 <= j < k < |idx| ==> idx[j] < idx[k]
    ensures forall p :: 0 <= p < |s| && IsDigit(s[p]) ==> p in idx
  {
    idx := DigitPositions(s);
    DigitPositionsLength(s);
    DigitPositionsPick(s);
    DigitPositionsIncreasing(s);
    DigitPositionsCover(s);
  }
}

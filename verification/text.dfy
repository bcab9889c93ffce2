/** Python's argument-less `str.strip()`: removal of leading and trailing
    whitespace, where whitespace is exactly what `str.isspace` accepts. */
module Text {

  /** The code points for which Python's `str.isspace` is true. */
  predicate IsSpace(c: char) {
    var n := c as int;
    || (0x09 <= n <= 0x0D)
    || (0x1C <= n <= 0x20)
    || n == 0x85 || n == 0xA0 || n == 0x1680
    || (0x2000 <= n <= 0x200A)
    || n == 0x2028 || n == 0x2029 || n == 0x202F || n == 0x205F || n == 0x3000
  }

  predicate AllSpace(s: string) {
    forall k :: 0 <= k < |s| ==> IsSpace(s[k])
  }

  /** Neither end of `s` is whitespace (vacuously so for the empty string). */
  predicate Trimmed(s: string) {
    |s| == 0 || (!IsSpace(s[0]) && !IsSpace(s[|s| - 1]))
  }

  /** `r` is `s` with some whitespace removed at both ends, and nothing else. */
  ghost predicate StrippedFrom(s: string, r: string) {
    exists i, j :: 0 <= i <= j <= |s| && r == s[i..j] && AllSpace(s[..i]) && AllSpace(s[j..])
  }

  /** The length of the longest all-whitespace prefix of `s`. */
  function LeadingSpace(s: string): (n: nat)
    ensures n <= |s|
    ensures forall k :: 0 <= k < n ==> IsSpace(s[k])
    ensures n < |s| ==> !IsSpace(s[n])
    decreases |s|
  {
    if |s| == 0 || !IsSpace(s[0]) then 0
    else
      var n := 1 + LeadingSpace(s[1..]);
      assert forall k :: 1 <= k < |s| ==> s[k] == s[1..][k - 1];
      n
  }

  /** The length of the longest all-whitespace suffix of `s`. */
  function TrailingSpace(s: string): (n: nat)
    ensures n <= |s|
    ensures forall k :: |s| - n <= k < |s| ==> IsSpace(s[k])
    ensures n < |s| ==> !IsSpace(s[|s| - 1 - n])
    decreases |s|
  {
    if |s| == 0 || !IsSpace(s[|s| - 1]) then 0
    else
      var init := s[..|s| - 1];
      var n := 1 + TrailingSpace(init);
      assert forall k :: 0 <= k < |init| ==> s[k] == init[k];
      n
  }

  /** `s.strip()`: the longest leading whitespace goes first, then the
      longest trailing whitespace of what is left. */
  function Strip(s: string): (r: string)
    ensures Trimmed(r)
    ensures StrippedFrom(s, r)
    ensures |r| <= |s|
  {
    var i := LeadingSpace(s);
    var rest := s[i..];
    var j := TrailingSpace(rest);
    var e := |s| - j;
    assert rest[..|rest| - j] == s[i..e];
    assert AllSpace(s[..i]) by {
      forall k | 0 <= k < i ensures IsSpace(s[..i][k]) { assert s[..i][k] == s[k]; }
    }
    assert AllSpace(s[e..]) by {
      forall k | 0 <= k < j ensures IsSpace(s[e..][k]) { assert s[e..][k] == rest[|rest| - j + k]; }
    }
    assert Trimmed(s[i..e]) by {
      if i < e {
        assert s[i..e][0] == s[i];
        assert s[i..e][e - i - 1] == rest[|rest| - 1 - j];
      }
    }
    s[i..e]
  }

  /** Any prefix length with the two properties of `LeadingSpace` is it. */
  lemma LeadingSpaceIs(s: string, n: nat)
    requires n <= |s| && forall k :: 0 <= k < n ==> IsSpace(s[k])
    requires n < |s| ==> !IsSpace(s[n])
    ensures LeadingSpace(s) == n
  {
  }

  /** Any suffix length with the two properties of `TrailingSpace` is it. */
  lemma TrailingSpaceIs(s: string, n: nat)
    requires n <= |s| && forall k :: |s| - n <= k < |s| ==> IsSpace(s[k])
    requires n < |s| ==> !IsSpace(s[|s| - 1 - n])
    ensures TrailingSpace(s) == n
  {
  }

  /** Strip is the unique decomposition: whitespace, a trimmed middle,
      whitespace. Whatever the split, the middle is what `strip` returns. */
  lemma {:induction false} StripUnique(a: string, m: string, b: string)
    requires AllSpace(a) && AllSpace(b) && Trimmed(m)
    ensures Strip(a + m + b) == m
  {
    var s := a + m + b;
    if |m| == 0 {
      forall k | 0 <= k < |s| ensures IsSpace(s[k]) {
        if k < |a| { assert s[k] == a[k]; } else { assert s[k] == b[k - |a|]; }
      }
      LeadingSpaceIs(s, |s|);
    } else {
      assert forall k :: 0 <= k < |a| ==> s[k] == a[k];
      assert s[|a|] == m[0];
      LeadingSpaceIs(s, |a|);
      var rest := s[|a|..];
      assert rest == m + b;
      assert forall k :: |rest| - |b| <= k < |rest| ==> rest[k] == b[k - (|rest| - |b|)];
      assert rest[|rest| - 1 - |b|] == m[|m| - 1];
      TrailingSpaceIs(rest, |b|);
      assert s[|a|..|s| - |b|] == m;
    }
  }

  lemma SpacePrefixAndRest(s: string, i: nat)
    requires i <= |s| && forall k :: 0 <= k < i ==> IsSpace(s[k])
    requires forall k :: 0 <= k < |s| - i ==> IsSpace(s[i..][k])
    ensures AllSpace(s)
  {
    forall k | 0 <= k < |s| ensures IsSpace(s[k]) {
      if k >= i { assert s[k] == s[i..][k - i]; }
    }
  }

  /** `strip` yields the empty string exactly for all-whitespace input. */
  lemma StripEmptyIff(s: string)
    ensures Strip(s) == "" <==> AllSpace(s)
  {
    var i := LeadingSpace(s);
    var rest := s[i..];
    var j := TrailingSpace(rest);
    if Strip(s) == "" {
      assert j == |rest|;
      SpacePrefixAndRest(s, i);
    }
    if AllSpace(s) {
      LeadingSpaceIs(s, |s|);
    }
  }

  /** Stripping twice is stripping once. */
  lemma StripIdempotent(s: string)
    ensures Strip(Strip(s)) == Strip(s)
  {
    var r := Strip(s);
    StripUnique("", r, "");
    assert "" + r + "" == r;
  }
}

/** UTF-8 text as bytes, and the cut that keeps a prefix of whole characters. */
module BoundedText {

  type Byte = b: nat | b < 256

  const MAX_ERROR_BYTES := 512

  /** A continuation byte; a character boundary is any other byte, or the end. */
  predicate Continuation(b: Byte) { 0x80 <= b < 0xC0 }

  /** Bytes in the character that `lead` opens (section 3 of RFC 3629). */
  function Width(lead: Byte): (w: nat)
    ensures 1 <= w <= 4
  {
    if lead < 0x80 then 1 else if lead < 0xE0 then 2 else if lead < 0xF0 then 3 else 4
  }

  predicate Utf8(s: seq<Byte>) {
    s == [] || (!Continuation(s[0])
                && Width(s[0]) <= |s|
                && (forall i :: 1 <= i < Width(s[0]) ==> Continuation(s[i]))
                && Utf8(s[Width(s[0])..]))
  }

  /** Cutting valid text at a character boundary leaves two valid texts. */
  lemma {:induction false} BoundarySplits(s: seq<Byte>, cut: nat)
    requires Utf8(s) && cut <= |s| && (cut < |s| ==> !Continuation(s[cut]))
    ensures Utf8(s[..cut]) && Utf8(s[cut..])
  {
    if cut == |s| {
      assert s[..cut] == s;
    } else if cut > 0 {
      var w := Width(s[0]);
      FirstCharacter(s);
      assert cut >= w;
      hide Utf8, Width;
      BoundarySplits(s[w..], cut - w);
      assert s[w..][..cut - w] == s[..cut][w..] && s[w..][cut - w..] == s[cut..];
      OpensWith(s, s[..cut]);
    } else {
      assert s[cut..] == s;
    }
  }

  lemma FirstCharacter(s: seq<Byte>)
    requires Utf8(s) && s != []
    ensures var w := Width(s[0]);
            && !Continuation(s[0]) && w <= |s| && Utf8(s[w..]) && forall i :: 1 <= i < w ==> Continuation(s[i])
  {
  }

  /** A prefix that holds the first character of valid text is valid when its rest is. */
  lemma OpensWith(s: seq<Byte>, p: seq<Byte>)
    requires Utf8(s) && s != [] && p <= s && Width(s[0]) <= |p| && Utf8(p[Width(s[0])..])
    ensures Utf8(p)
  {
    FirstCharacter(s);
    assert p[0] == s[0];
  }

  /** The converse: where a valid prefix of valid text ends is a boundary. */
  lemma {:induction false} PrefixEndsAtBoundary(s: seq<Byte>, cut: nat)
    requires Utf8(s) && cut < |s| && Utf8(s[..cut])
    ensures !Continuation(s[cut])
  {
    if cut > 0 {
      var w := Width(s[0]);
      assert s[..cut][0] == s[0];
      assert s[..cut][w..] == s[w..][..cut - w];
      PrefixEndsAtBoundary(s[w..], cut - w);
    }
  }

  lemma {:induction false} NoFourContinuations(s: seq<Byte>, i: nat)
    requires Utf8(s) && i + 4 <= |s|
    ensures exists k :: i <= k < i + 4 && !Continuation(s[k])
  {
    var w := Width(s[0]);
    if i == 0 {
      assert !Continuation(s[0]);
    } else if i < w {
      if w < |s| { assert s[w] == s[w..][0]; }
      assert !Continuation(s[w]);
    } else {
      NoFourContinuations(s[w..], i - w);
      var k :| i - w <= k < i - w + 4 && !Continuation(s[w..][k]);
      assert s[w + k] == s[w..][k];
    }
  }

  /** `r` is the longest prefix of `error` in whole characters within the byte limit. */
  ghost predicate LongestCut(error: seq<Byte>, r: seq<Byte>) {
    && |r| <= MAX_ERROR_BYTES && r <= error && Utf8(r)
    && forall n: nat :: |r| < n <= |error| && Utf8(error[..n]) ==> n > MAX_ERROR_BYTES
  }

  /** bounded_error: the longest prefix of whole characters in the byte limit; at most three bytes are wasted. */
  method Bounded(error: seq<Byte>) returns (r: seq<Byte>)
    requires Utf8(error)
    ensures LongestCut(error, r)
    ensures |error| <= MAX_ERROR_BYTES ==> r == error
    ensures |error| > MAX_ERROR_BYTES ==> |r| > MAX_ERROR_BYTES - 4
  {
    if |error| <= MAX_ERROR_BYTES {
      return error;
    }
    var end := MAX_ERROR_BYTES;
    NoFourContinuations(error, MAX_ERROR_BYTES - 3);
    while Continuation(error[end])
      invariant MAX_ERROR_BYTES - 3 <= end <= MAX_ERROR_BYTES
      invariant forall k :: end < k <= MAX_ERROR_BYTES ==> Continuation(error[k])
      decreases end
    {
      end := end - 1;
    }
    BoundarySplits(error, end);
    r := error[..end];
    forall n: nat | |r| < n <= |error| && Utf8(error[..n]) ensures n > MAX_ERROR_BYTES {
      if n <= MAX_ERROR_BYTES { PrefixEndsAtBoundary(error, n); }
    }
  }
}

/** Percentage bucketing: the first eight hex characters of the MD5 digest of
    the hash input, read as a number, taken modulo 100.

    MD5 itself is not modelled: it enters as a parameter of type `Digest`,
    any function from the hashed text to a 32-character hex string, and
    everything proved here holds for every such function. */
module Bucketing {

  predicate IsHexDigit(c: char) {
    '0' <= c <= '9' || 'a' <= c <= 'f' || 'A' <= c <= 'F'
  }

  predicate IsHex(s: seq<char>) {
    forall i :: 0 <= i < |s| ==> IsHexDigit(s[i])
  }

  /** A hex-encoded 128-bit digest. */
  type HexDigest = s: seq<char> | |s| == 32 && IsHex(s)
    witness "00000000000000000000000000000000"

  /** The digest function (MD5 in the source), left uninterpreted. */
  type Digest = seq<char> -> HexDigest

  /** Number of hex characters read from the front of the digest (4 bytes). */
  const PREFIX_LENGTH := 8

  /** Number of buckets. */
  const BUCKETS := 100

  function HexDigitValue(c: char): (v: nat)
    requires IsHexDigit(c)
    ensures v < 16
  {
    if '0' <= c <= '9' then c as int - '0' as int
    else if 'a' <= c <= 'f' then c as int - 'a' as int + 10
    else c as int - 'A' as int + 10
  }

  function Pow16(n: nat): (p: nat)
    ensures p >= 1
  {
    if n == 0 then 1 else 16 * Pow16(n - 1)
  }

  /** Base-16 reading of a string of hex digits, most significant first
      (what `parseInt(s, 16)` gives when every character is a hex digit). */
  function HexValue(s: seq<char>): nat
    requires IsHex(s)
    decreases |s|
  {
    if s == [] then 0 else HexValue(s[..|s| - 1]) * 16 + HexDigitValue(s[|s| - 1])
  }

  /** A string of n hex digits never reads as 16^n or more. */
  lemma {:induction false} HexValueBound(s: seq<char>)
    requires IsHex(s)
    ensures HexValue(s) < Pow16(|s|)
  {
    if s != [] {
      HexValueBound(s[..|s| - 1]);
    }
  }

  lemma Pow16Of8()
    ensures Pow16(PREFIX_LENGTH) == 0x1_0000_0000
  {
  }

  /** `parseInt(hash.substring(0, 8), 16)`: the first four digest bytes as a
      big-endian unsigned number. It is below 2^32, so the JavaScript number
      holding it is an exact non-negative integer and its `% 100` agrees with
      Dafny's. */
  function PrefixValue(h: HexDigest): (n: nat)
    ensures n < 0x1_0000_0000
  {
    HexValueBound(h[..PREFIX_LENGTH]);
    Pow16Of8();
    HexValue(h[..PREFIX_LENGTH])
  }

  /** The bucket (`remain`) a digest falls in. */
  function BucketOf(h: HexDigest): (b: nat)
    ensures b < BUCKETS
  {
    PrefixValue(h) % BUCKETS
  }

  /** The bucket of a hash input under a given digest function. */
  function Bucket(digest: Digest, input: seq<char>): (b: nat)
    ensures b < BUCKETS
  {
    BucketOf(digest(input))
  }

  // ---------------------------------------------------------------------
  // Every bucket is reachable: there is a digest for each of the 100
  // buckets, so a percentage threshold really separates all of them.

  function HexChar(d: nat): (c: char)
    requires d < 16
    ensures IsHexDigit(c) && HexDigitValue(c) == d
  {
    if d < 10 then ('0' as int + d) as char else ('a' as int + d - 10) as char
  }

  /** The width-digit hex rendering of n (the inverse of HexValue below 16^width). */
  function ToHex(n: nat, width: nat): (s: seq<char>)
    ensures |s| == width && IsHex(s)
  {
    if width == 0 then [] else ToHex(n / 16, width - 1) + [HexChar(n % 16)]
  }

  lemma {:induction false} HexValueOfToHex(n: nat, width: nat)
    requires n < Pow16(width)
    ensures HexValue(ToHex(n, width)) == n
  {
    if width > 0 {
      var s := ToHex(n, width);
      assert n / 16 < Pow16(width - 1);
      HexValueOfToHex(n / 16, width - 1);
      assert s[..|s| - 1] == ToHex(n / 16, width - 1);
      assert s[|s| - 1] == HexChar(n % 16);
    }
  }

  lemma EveryBucketReachable(b: nat)
    requires b < BUCKETS
    ensures exists h: HexDigest :: BucketOf(h) == b
  {
    Pow16Of8();
    var front := ToHex(b, PREFIX_LENGTH);
    var s := front + ToHex(0, 24);
    assert IsHex(s) by {
      forall i | 0 <= i < |s| ensures IsHexDigit(s[i]) {
        if i < |front| { assert s[i] == front[i]; } else { assert s[i] == ToHex(0, 24)[i - |front|]; }
      }
    }
    var h: HexDigest := s;
    assert h[..PREFIX_LENGTH] == front;
    HexValueOfToHex(b, PREFIX_LENGTH);
    assert BucketOf(h) == b;
  }
}

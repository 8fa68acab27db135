/**
 frontend/p2p/crypto.ts: hexadecimal text, the comparison of digests, and the commitment to the
 fake's id. SHA-256 is an arbitrary function of bytes; lower-case hexadecimal text is the base 16 of
 section 8 of RFC 4648 in its lower-case alphabet.
 */
module Crypto {
  import opened Utf8

  type Digest = Bytes -> Bytes

  // ---- hexadecimal digits ----

  function HexDigit(n: bv8): bv16
    requires n < 16
  {
    if n < 10 then 0x30 + (n as bv16) else 0x57 + (n as bv16)
  }

  predicate IsHexDigit(u: bv16) {
    0x30 <= u <= 0x39 || 0x41 <= u <= 0x46 || 0x61 <= u <= 0x66
  }

  predicate IsLowerHexDigit(u: bv16) {
    0x30 <= u <= 0x39 || 0x61 <= u <= 0x66
  }

  function HexValue(u: bv16): bv8
    requires IsHexDigit(u)
  {
    if u <= 0x39 then ((u - 0x30) & 0xF) as bv8 else if u <= 0x46 then ((u - 0x37) & 0xF) as bv8 else ((u - 0x57) & 0xF) as bv8
  }

  function HighNibble(b: bv8): (n: bv8)
    ensures n < 16
  {
    NibbleIsSmall(b >> 4, b);
    b >> 4
  }

  function LowNibble(b: bv8): (n: bv8)
    ensures n < 16
  {
    b & 0xF
  }

  lemma NibbleIsSmall(n: bv8, b: bv8)
    requires n == b >> 4
    ensures n < 16
  {
  }

  /** The base 16 encoding, two digits an octet. */
  function Base16(b: Bytes): JsString {
    if b == [] then [] else [HexDigit(HighNibble(b[0])), HexDigit(LowNibble(b[0]))] + Base16(b[1..])
  }

  // ---- bytesToHex ----

  /** A byte as a numeral of radix 16: no leading zero. */
  function Numeral16(b: bv8): (s: JsString)
  {
    if b < 16 then [HexDigit(b)] else [HexDigit(HighNibble(b)), HexDigit(LowNibble(b))]
  }

  function PadStart(s: JsString, width: nat, pad: bv16): JsString
    decreases width - |s|
  {
    if |s| >= width then s else PadStart([pad] + s, width, pad)
  }

  lemma SmallNumeral(b: bv8)
    ensures b < 16 ==> HighNibble(b) == 0 && LowNibble(b) == b
  {
  }

  lemma PaddedNumeral(b: bv8)
    ensures PadStart(Numeral16(b), 2, 0x30) == [HexDigit(HighNibble(b)), HexDigit(LowNibble(b))]
  {
    SmallNumeral(b);
    assert HexDigit(0) == 0x30;
    hide HexDigit, HighNibble, LowNibble;
    if b < 16 {
      assert [0x30 as bv16] + Numeral16(b) == [0x30, HexDigit(b)];
      assert PadStart([0x30, HexDigit(b)], 2, 0x30) == [0x30, HexDigit(b)];
    }
  }

  method BytesToHex(b: Bytes) returns (s: JsString)
    ensures s == Base16(b)
  {
    hide HexDigit, HighNibble, LowNibble, Numeral16, PadStart;
    s := [];
    var i := 0;
    while i < |b|
      invariant 0 <= i <= |b|
      invariant s + Base16(b[i..]) == Base16(b)
    {
      ghost var digits := [HexDigit(HighNibble(b[i])), HexDigit(LowNibble(b[i]))];
      assert b[i..][1..] == b[i + 1..];
      assert s + (digits + Base16(b[i + 1..])) == (s + digits) + Base16(b[i + 1..]);
      PaddedNumeral(b[i]);
      s := s + PadStart(Numeral16(b[i]), 2, 0x30);
      i := i + 1;
    }
    assert b[i..] == [];
  }

  // ---- hexToBytes ----

  // White space and line terminators of the host language.
  predicate IsSpace(u: bv16) {
    0x09 <= u <= 0x0D || u == 0x20 || u == 0xA0 || u == 0x1680 || 0x2000 <= u <= 0x200A ||
    u == 0x2028 || u == 0x2029 || u == 0x202F || u == 0x205F || u == 0x3000 || u == 0xFEFF
  }

  function Trimmed(t: JsString): JsString {
    if t != [] && IsSpace(t[0]) then Trimmed(t[1..]) else t
  }

  /** Without the 0x that radix 16 lets a numeral start with. */
  function Unprefixed(t: JsString): JsString {
    if |t| >= 2 && t[0] == 0x30 && (t[1] == 0x58 || t[1] == 0x78) then t[2..] else t
  }

  /** The value, modulo 256, of the longest run of digits at the start. */
  function LeadingDigits(t: JsString, value: bv8): bv8 {
    if t != [] && IsHexDigit(t[0]) then LeadingDigits(t[1..], (value << 4) | HexValue(t[0])) else value
  }

  /**
   parseInt with radix 16, stored in an element of a Uint8Array: the value modulo 256, and 0 where
   there is no number.
   */
  function ParsedByte(t: JsString): bv8 {
    var u := Trimmed(t);
    var signed := u != [] && (u[0] == 0x2B || u[0] == 0x2D);
    var magnitude := LeadingDigits(Unprefixed(if signed then u[1..] else u), 0);
    if signed && u[0] == 0x2D then 0 - magnitude else magnitude
  }

  /** Byte by byte; a last odd digit is dropped. */
  function Unhexed(hex: JsString): Bytes {
    if |hex| < 2 then [] else [ParsedByte(hex[..2])] + Unhexed(hex[2..])
  }

  lemma {:induction false} UnhexedAt(hex: JsString, i: nat)
    requires 2 * i + 1 < |hex|
    ensures |Unhexed(hex)| == |hex| / 2 && Unhexed(hex)[i] == ParsedByte(hex[2 * i..2 * i + 2])
    decreases i
  {
    hide ParsedByte;
    UnhexedLength(hex);
    if i > 0 {
      UnhexedAt(hex[2..], i - 1);
      var j := 2 * (i - 1);
      assert hex[2..][j..j + 2] == hex[j + 2..j + 4];
    }
  }

  lemma {:induction false} UnhexedLength(hex: JsString)
    ensures |Unhexed(hex)| == |hex| / 2
    decreases |hex|
  {
    if |hex| >= 2 {
      UnhexedLength(hex[2..]);
    }
  }

  method HexToBytes(hex: JsString) returns (out: array<bv8>)
    ensures fresh(out) && out[..] == Unhexed(hex)
  {
    hide ParsedByte, Unhexed;
    out := new bv8[|hex| / 2];
    UnhexedLength(hex);
    var i := 0;
    while i < out.Length
      invariant 0 <= i <= out.Length
      invariant out[..i] == Unhexed(hex)[..i]
    {
      UnhexedAt(hex, i);
      out[i] := ParsedByte(hex[i * 2..i * 2 + 2]);
      i := i + 1;
    }
  }

  // ---- round trips ----

  lemma DigitsAreHex(n: bv8)
    requires n < 16
    ensures IsLowerHexDigit(HexDigit(n)) && HexValue(HexDigit(n)) == n
  {
  }

  lemma LowerHexIsHex(u: bv16)
    requires IsLowerHexDigit(u)
    ensures IsHexDigit(u) && HexValue(u) < 16 && HexDigit(HexValue(u)) == u
  {
  }

  lemma HexIsPlain(u: bv16)
    requires IsHexDigit(u)
    ensures !IsSpace(u) && u != 0x2B && u != 0x2D && u != 0x58 && u != 0x78
  {
  }

  lemma NibblesJoin(high: bv8, low: bv8)
    requires high < 16 && low < 16
    ensures HighNibble((high << 4) | low) == high && LowNibble((high << 4) | low) == low
    ensures ((0 as bv8) << 4) | high == high
  {
  }

  lemma NibblesSplit(b: bv8)
    ensures (HighNibble(b) << 4) | LowNibble(b) == b
  {
  }

  /** On two digits, parseInt joins their values. */
  lemma ParsedDigits(a: bv16, c: bv16)
    requires IsLowerHexDigit(a) && IsLowerHexDigit(c)
    ensures IsHexDigit(a) && IsHexDigit(c)
    ensures ParsedByte([a, c]) == (HexValue(a) << 4) | HexValue(c)
  {
    LowerHexIsHex(a);
    LowerHexIsHex(c);
    HexIsPlain(a);
    HexIsPlain(c);
    NibblesJoin(HexValue(a), HexValue(c));
    hide IsHexDigit, IsSpace, HexValue, HighNibble, LowNibble;
    assert LeadingDigits([a, c], 0) == LeadingDigits([c], HexValue(a)) by { assert [a, c][1..] == [c]; }
    assert LeadingDigits([c], HexValue(a)) == LeadingDigits([], (HexValue(a) << 4) | HexValue(c)) by { assert [c][1..] == []; }
  }

  lemma ByteRoundTrip(b: bv8)
    ensures ParsedByte([HexDigit(HighNibble(b)), HexDigit(LowNibble(b))]) == b
  {
    DigitsAreHex(HighNibble(b));
    DigitsAreHex(LowNibble(b));
    NibblesSplit(b);
    hide IsLowerHexDigit, HexDigit, HexValue, HighNibble, LowNibble, ParsedByte;
    ParsedDigits(HexDigit(HighNibble(b)), HexDigit(LowNibble(b)));
  }

  /** hexToBytes undoes bytesToHex. */
  lemma {:induction false} HexRoundTrip(b: Bytes)
    ensures Unhexed(Base16(b)) == b
  {
    hide HexDigit, HighNibble, LowNibble, ParsedByte;
    if b != [] {
      ByteRoundTrip(b[0]);
      HexRoundTrip(b[1..]);
      var h := Base16(b);
      assert h[..2] == [HexDigit(HighNibble(b[0])), HexDigit(LowNibble(b[0]))];
      assert h[2..] == Base16(b[1..]);
    }
  }

  lemma Base16IsInjective(b: Bytes, c: Bytes)
    requires Base16(b) == Base16(c)
    ensures b == c
  {
    HexRoundTrip(b);
    HexRoundTrip(c);
  }

  /** Lower-case digits, two for each octet. */
  predicate IsBase16(hex: JsString) {
    |hex| % 2 == 0 && forall i :: 0 <= i < |hex| ==> IsLowerHexDigit(hex[i])
  }

  lemma {:induction false} Base16IsBase16(b: Bytes)
    ensures IsBase16(Base16(b)) && |Base16(b)| == 2 * |b|
  {
    hide HexDigit, HighNibble, LowNibble, IsLowerHexDigit;
    if b != [] {
      DigitsAreHex(HighNibble(b[0]));
      DigitsAreHex(LowNibble(b[0]));
      Base16IsBase16(b[1..]);
    }
  }

  lemma {:induction false} Base16Unhexed(hex: JsString)
    requires IsBase16(hex)
    ensures Base16(Unhexed(hex)) == hex
    decreases |hex|
  {
    hide HexDigit, HexValue, HighNibble, LowNibble, ParsedByte, IsLowerHexDigit, IsHexDigit;
    if |hex| >= 2 {
      DigitsBack(hex[0], hex[1]);
      assert hex[..2] == [hex[0], hex[1]];
      Base16Unhexed(hex[2..]);
      assert hex == hex[..2] + hex[2..];
      assert Unhexed(hex)[1..] == Unhexed(hex[2..]);
    }
  }

  lemma DigitsBack(a: bv16, c: bv16)
    requires IsLowerHexDigit(a) && IsLowerHexDigit(c)
    ensures HexDigit(HighNibble(ParsedByte([a, c]))) == a && HexDigit(LowNibble(ParsedByte([a, c]))) == c
  {
    LowerHexIsHex(a);
    LowerHexIsHex(c);
    NibblesJoin(HexValue(a), HexValue(c));
    hide HexDigit, HexValue, HighNibble, LowNibble, ParsedByte, IsLowerHexDigit, IsHexDigit;
    ParsedDigits(a, c);
  }

  /** bytesToHex undoes hexToBytes on lower-case hexadecimal text of even length, and on nothing else. */
  lemma Base16Exactly(hex: JsString)
    ensures Base16(Unhexed(hex)) == hex <==> IsBase16(hex)
  {
    hide HexDigit, ParsedByte, IsLowerHexDigit;
    Base16IsBase16(Unhexed(hex));
    if IsBase16(hex) {
      Base16Unhexed(hex);
    }
  }

  // ---- constantTimeEqual ----

  function Differing(diff: bv16, x: bv16, y: bv16): bv16 {
    diff | (x ^ y)
  }

  lemma NoDifference(diff: bv16, x: bv16, y: bv16)
    ensures Differing(0, x, x) == 0
    ensures Differing(diff, x, y) == 0 ==> diff == 0 && x ^ y == 0
  {
  }

  lemma SameWhenXorIsZero(x: bv16, y: bv16)
    requires x ^ y == 0
    ensures x == y
  {
  }

  lemma DifferenceKept(diff: bv16, x: bv16, y: bv16)
    ensures Differing(diff, x, y) == 0 <==> diff == 0 && x == y
  {
    hide Differing;
    NoDifference(diff, x, y);
    if Differing(diff, x, y) == 0 {
      SameWhenXorIsZero(x, y);
    }
  }

  /** The loop that never stops early is still exactly equality. */
  method ConstantTimeEqual(a: JsString, b: JsString) returns (equal: bool)
    ensures equal <==> a == b
  {
    if |a| != |b| {
      return false;
    }
    hide Differing;
    var diff: bv16 := 0;
    var i := 0;
    while i < |a|
      invariant 0 <= i <= |a|
      invariant diff == 0 <==> a[..i] == b[..i]
    {
      DifferenceKept(diff, a[i], b[i]);
      assert a[..i + 1] == a[..i] + [a[i]] && b[..i + 1] == b[..i] + [b[i]];
      assert a[..i + 1] == b[..i + 1] <==> a[..i] == b[..i] && a[i] == b[i] by {
        if a[..i + 1] == b[..i + 1] {
          assert a[..i + 1][..i] == a[..i] && b[..i + 1][..i] == b[..i];
          assert a[..i + 1][i] == a[i] && b[..i + 1][i] == b[i];
        }
      }
      diff := Differing(diff, a[i], b[i]);
      i := i + 1;
    }
    assert a[..i] == a && b[..i] == b;
    return diff == 0;
  }

  // ---- commitments ----

  /** What is committed to: the digest of the id's octets followed by the nonce. */
  function Commitment(sha: Digest, id: Bytes, nonce: Bytes): JsString {
    Base16(sha(id + nonce))
  }

  method ComputeCommitment(sha: Digest, fakeId: JsString, nonceHex: JsString) returns (hex: JsString)
    ensures hex == Commitment(sha, Octets(fakeId), Unhexed(nonceHex))
  {
    hide Unhexed, CodePoints, Encoded;
    var id := Encode(fakeId);
    var nonce := HexToBytes(nonceHex);
    ghost var nonceBytes := nonce[..];
    var buf := new bv8[|id| + nonce.Length];
    forall i | 0 <= i < |id| {
      buf[i] := id[i];
    }
    forall i | 0 <= i < nonce.Length {
      buf[|id| + i] := nonce[i];
    }
    assert buf[..] == id + nonceBytes;
    hex := BytesToHex(sha(buf[..]));
  }

  method VerifyCommitment(sha: Digest, fakeId: JsString, nonceHex: JsString, expected: JsString) returns (ok: bool)
    ensures ok <==> Verifies(sha, fakeId, nonceHex, expected)
  {
    var got := ComputeCommitment(sha, fakeId, nonceHex);
    ok := ConstantTimeEqual(got, expected);
  }

  predicate Verifies(sha: Digest, fakeId: JsString, nonceHex: JsString, expected: JsString) {
    Commitment(sha, Octets(fakeId), Unhexed(nonceHex)) == expected
  }

  ghost predicate CollisionFree(sha: Digest) {
    forall x, y :: sha(x) == sha(y) ==> x == y
  }

  /** No second id opens the same commitment with a nonce of the same length, unless the digests collide. */
  lemma CommitmentBinds(sha: Digest, id: JsString, nonce: JsString, other: JsString, otherNonce: JsString, commitment: JsString)
    requires CollisionFree(sha)
    requires Verifies(sha, id, nonce, commitment) && Verifies(sha, other, otherNonce, commitment)
    requires |Unhexed(nonce)| == |Unhexed(otherNonce)|
    ensures id == other && Unhexed(nonce) == Unhexed(otherNonce)
  {
    hide Unhexed, Base16, Octets;
    var x, y := Octets(id) + Unhexed(nonce), Octets(other) + Unhexed(otherNonce);
    Base16IsInjective(sha(x), sha(y));
    assert |Octets(id)| == |Octets(other)|;
    assert x[..|Octets(id)|] == Octets(id) && y[..|Octets(id)|] == Octets(other);
    assert x[|Octets(id)|..] == Unhexed(nonce) && y[|Octets(id)|..] == Unhexed(otherNonce);
    EncoderIsInjective(id, other);
  }

  /** Two ids have nonces that open one and the same commitment. */
  ghost predicate ShareACommitment(sha: Digest, a: JsString, b: JsString) {
    exists n, m, commitment :: Verifies(sha, a, n, commitment) && Verifies(sha, b, m, commitment)
  }

  /** Whatever follows the shorter id in the longer one can be taken for its nonce. */
  lemma PrefixShares(sha: Digest, a: JsString, b: JsString)
    requires Octets(a) <= Octets(b)
    ensures ShareACommitment(sha, a, b) && ShareACommitment(sha, b, a)
  {
    hide Octets, Unhexed, Base16;
    var rest := Octets(b)[|Octets(a)|..];
    HexRoundTrip(rest);
    HexRoundTrip([]);
    assert Octets(a) + rest == Octets(b) == Octets(b) + [];
    var commitment := Commitment(sha, Octets(b), []);
    assert Verifies(sha, a, Base16(rest), commitment) && Verifies(sha, b, Base16([]), commitment);
  }

  /** Without collisions two ids share a commitment exactly when the octets of one begin those of the other. */
  lemma SharedExactlyByPrefixes(sha: Digest, a: JsString, b: JsString)
    requires CollisionFree(sha)
    ensures ShareACommitment(sha, a, b) <==> Octets(a) <= Octets(b) || Octets(b) <= Octets(a)
  {
    hide Octets, Unhexed, Base16;
    if n, m, commitment :| Verifies(sha, a, n, commitment) && Verifies(sha, b, m, commitment) {
      var x, y := Octets(a) + Unhexed(n), Octets(b) + Unhexed(m);
      Base16IsInjective(sha(x), sha(y));
      assert x == y;
      if |Octets(a)| <= |Octets(b)| {
        assert x[..|Octets(a)|] == Octets(a) && y[..|Octets(a)|] == Octets(b)[..|Octets(a)|];
      } else {
        assert y[..|Octets(b)|] == Octets(b) && x[..|Octets(b)|] == Octets(a)[..|Octets(b)|];
      }
    }
    if Octets(a) <= Octets(b) {
      PrefixShares(sha, a, b);
    } else if Octets(b) <= Octets(a) {
      PrefixShares(sha, b, a);
    }
  }

  /**
   Nothing marks where the id ends and the nonce starts. With nonces of different lengths, which
   verifyCommitment accepts, two ids open one commitment, whatever the digest function: "a" with
   the nonce "b" and "ab" with the empty nonce.
   */
  lemma NonceLengthMatters(sha: Digest)
    ensures var a, ab, b := [0x61], [0x61, 0x62], [0x36, 0x32];
            Verifies(sha, a, b, Commitment(sha, Octets(ab), [])) && Verifies(sha, ab, [], Commitment(sha, Octets(ab), []))
  {
    var a: JsString, ab: JsString, b: JsString := [0x61], [0x61, 0x62], [0x36, 0x32];
    TwoLetters();
    assert Unhexed(b) == [0x62] by {
      NonceByte();
      assert b[..2] == b && b[2..] == [];
    }
    assert Unhexed([]) == [];
    hide Unhexed, Base16, Octets;
    assert Octets(a) + Unhexed(b) == Octets(ab) + [];
  }

  lemma TwoLetters()
    ensures Octets([0x61]) == [0x61] && Octets([0x61, 0x62]) == [0x61, 0x62]
  {
    var none: seq<CodePoint> := [];
    assert Encoded(none) == [];
    LetterPoints();
    AsciiEncodes(0x61);
    AsciiEncodes(0x62);
    hide CodePoints, EncodePoint, Encoded;
    EncodedOneMore(0x62, none);
    EncodedOneMore(0x61, none);
    EncodedOneMore(0x61, [0x62]);
    assert [0x61 as CodePoint] + none == [0x61] && [0x62 as CodePoint] + none == [0x62];
    assert [0x61 as CodePoint] + [0x62] == [0x61, 0x62];
  }

  lemma AsciiEncodes(cp: CodePoint)
    requires cp == 0x61 || cp == 0x62
    ensures EncodePoint(cp) == [if cp == 0x61 then 0x61 else 0x62]
  {
  }

  lemma LetterPoints()
    ensures CodePoints([0x61], 0) == [0x61] && CodePoints([0x61, 0x62], 0) == [0x61, 0x62]
  {
    var a: JsString, ab: JsString := [0x61], [0x61, 0x62];
    PlainPoint(a, 0);
    PlainPoint(ab, 0);
    PlainPoint(ab, 1);
    hide CodePointAt, Width;
    assert CodePoints(a, 1) == [] && CodePoints(ab, 2) == [];
    assert CodePoints(ab, 1) == [0x62];
  }

  lemma PlainPoint(s: JsString, i: nat)
    requires i < |s| && s[i] < 0x80
    ensures CodePointAt(s, i) == s[i] as bv32 && Width(CodePointAt(s, i)) == 1
  {
  }

  lemma NonceByte()
    ensures ParsedByte([0x36, 0x32]) == 0x62
  {
    ParsedDigits(0x36, 0x32);
    assert HexValue(0x36) == 6 && HexValue(0x32) == 2;
  }
}

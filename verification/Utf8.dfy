/**
 The TextEncoder polyfill of internal/bundler/polyfills.go, against the encoding of section 3 of
 RFC 3629 and a reference decoder for its section 4. Host-language strings are sequences of UTF-16
 code units, well formed or not.
 */
module Utf8 {
  import opened Prelude

  type JsString = seq<bv16>
  type Bytes = seq<bv8>

  // What codePointAt can return: a scalar value, or a lone surrogate.
  type CodePoint = cp: bv32 | cp <= 0x10FFFF

  // ---- UTF-16 ----

  predicate IsHigh(u: bv16) { 0xD800 <= u <= 0xDBFF }

  predicate IsLow(u: bv16) { 0xDC00 <= u <= 0xDFFF }

  predicate IsSurrogate(cp: bv32) { 0xD800 <= cp <= 0xDFFF }

  function Joined(high: bv16, low: bv16): (cp: CodePoint)
    requires IsHigh(high) && IsLow(low)
    ensures cp >= 0x10000
  {
    JoinedInRange(high, low);
    (((high as bv32) - 0xD800) << 10) + ((low as bv32) - 0xDC00) + 0x10000
  }

  lemma JoinedInRange(high: bv16, low: bv16)
    requires IsHigh(high) && IsLow(low)
    ensures 0x10000 <= (((high as bv32) - 0xD800) << 10) + ((low as bv32) - 0xDC00) + 0x10000 <= 0x10FFFF
  {
  }

  function Wide(u: bv16): CodePoint { u as bv32 }

  function CodePointAt(s: JsString, i: nat): (cp: CodePoint)
    requires i < |s|
  {
    if IsHigh(s[i]) && i + 1 < |s| && IsLow(s[i + 1]) then Joined(s[i], s[i + 1]) else Wide(s[i])
  }

  function Width(cp: CodePoint): nat {
    if cp >= 0x10000 then 2 else 1
  }

  /** The code points from unit i on. */
  function CodePoints(s: JsString, i: nat): seq<CodePoint>
    requires i <= |s|
    decreases |s| - i
  {
    if i == |s| then []
    else
      var cp := CodePointAt(s, i);
      [cp] + CodePoints(s, i + Width(cp))
  }

  /** Every surrogate is half of a pair. */
  predicate WellFormed(s: JsString) {
    forall cp :: cp in CodePoints(s, 0) ==> !IsSurrogate(cp)
  }

  function Units(cp: CodePoint): JsString {
    if cp < 0x10000 then [(cp & 0xFFFF) as bv16]
    else [(0xD800 + (((cp - 0x10000) >> 10) & 0x3FF)) as bv16, (0xDC00 + ((cp - 0x10000) & 0x3FF)) as bv16]
  }

  function AllUnits(cps: seq<CodePoint>): JsString {
    if cps == [] then [] else Units(cps[0]) + AllUnits(cps[1..])
  }

  // ---- the encoding of RFC 3629 ----

  function Octet(n: bv32): bv8 {
    (n & 0xFF) as bv8
  }

  // Bits of a code point above position k, and the six bits from position k.
  function Above(cp: bv32, k: int): bv32
    requires k in {6, 12, 18}
  {
    if k == 6 then cp >> 6 else if k == 12 then cp >> 12 else cp >> 18
  }

  function Six(cp: bv32, k: int): bv32
    requires k in {0, 6, 12}
  {
    if k == 0 then cp & 0x3F else if k == 6 then (cp >> 6) & 0x3F else (cp >> 12) & 0x3F
  }

  // A continuation octet: 10xxxxxx.
  function Mark(six: bv32): bv8 {
    Octet(Or(0x80, six))
  }

  function EncodePoint(cp: CodePoint): (b: Bytes)
    ensures 1 <= |b| <= 4
  {
    if cp <= 0x7F then [Octet(cp)]
    else if cp <= 0x7FF then [Octet(Or(0xC0, Above(cp, 6))), Mark(Six(cp, 0))]
    else if cp <= 0xFFFF then [Octet(Or(0xE0, Above(cp, 12))), Mark(Six(cp, 6)), Mark(Six(cp, 0))]
    else [Octet(Or(0xF0, Above(cp, 18))), Mark(Six(cp, 12)), Mark(Six(cp, 6)), Mark(Six(cp, 0))]
  }

  function Encoded(cps: seq<CodePoint>): Bytes {
    if cps == [] then [] else EncodePoint(cps[0]) + Encoded(cps[1..])
  }

  // ---- the encoder ----

  /** The continuation octets for the shifts c, c - 6, ... down to 0. */
  function Continuation(cp: CodePoint, c: int): Bytes
    requires c in {-6, 0, 6, 12}
    decreases c + 6
  {
    if c < 0 then [] else [Mark(Six(cp, c))] + Continuation(cp, c - 6)
  }

  // The operators of the source on non-negative 32-bit numbers.
  function Shr(n: bv32, c: int): bv32
    requires 0 <= c < 32
  {
    n >> (c as bv5)
  }

  function Or(m: bv32, n: bv32): bv32 { m | n }

  function And(m: bv32, n: bv32): bv32 { m & n }

  lemma Shifts(cp: bv32, c: int)
    requires c in {0, 6, 12, 18}
    ensures c > 0 ==> Shr(cp, c) == Above(cp, c)
    ensures c < 18 ==> And(Shr(cp, c), 0x3F) == Six(cp, c)
    ensures c == 0 ==> Or(0, Shr(cp, c)) == cp
  {
  }

  lemma FirstOctet(cp: CodePoint, c: int, bits: bv32)
    requires (c, bits) == if cp <= 0x7F then (0, 0x00) else if cp <= 0x7FF then (6, 0xC0) else if cp <= 0xFFFF then (12, 0xE0) else (18, 0xF0)
    ensures [Octet(Or(bits, Shr(cp, c)))] + Continuation(cp, c - 6) == EncodePoint(cp)
  {
    hide Octet, Mark, Six, Above, Continuation, Shr, Or, And;
    Shifts(cp, c);
    Continuations(cp);
  }

  lemma Continuations(cp: CodePoint)
    ensures Continuation(cp, -6) == []
    ensures Continuation(cp, 0) == [Mark(Six(cp, 0))]
    ensures Continuation(cp, 6) == [Mark(Six(cp, 6)), Mark(Six(cp, 0))]
    ensures Continuation(cp, 12) == [Mark(Six(cp, 12)), Mark(Six(cp, 6)), Mark(Six(cp, 0))]
  {
    hide Octet, Mark, Six;
    assert Continuation(cp, 0) == [Mark(Six(cp, 0))] + Continuation(cp, -6);
    assert Continuation(cp, 6) == [Mark(Six(cp, 6))] + Continuation(cp, 0);
    assert Continuation(cp, 12) == [Mark(Six(cp, 12))] + Continuation(cp, 6);
  }

  lemma NextPoint(s: JsString, i: nat)
    requires i < |s|
    ensures var cp := CodePointAt(s, i);
            && 1 <= Width(cp) && i + Width(cp) <= |s|
            && CodePoints(s, i) == [cp] + CodePoints(s, i + Width(cp))
  {
  }

  lemma EncodedOneMore(cp: CodePoint, rest: seq<CodePoint>)
    ensures Encoded([cp] + rest) == EncodePoint(cp) + Encoded(rest)
  {
    hide EncodePoint;
    assert ([cp] + rest)[1..] == rest;
  }

  /** The nested loops of the polyfill output the encoding of the string's code points. */
  method Encode(s: JsString) returns (octets: Bytes)
    ensures octets == Encoded(CodePoints(s, 0))
  {
    hide EncodePoint, CodePointAt, CodePoints, Width, Encoded;
    octets := [];
    var i := 0;
    while i < |s|
      invariant 0 <= i <= |s|
      invariant octets + Encoded(CodePoints(s, i)) == Encoded(CodePoints(s, 0))
    {
      var cp := CodePointAt(s, i);
      NextPoint(s, i);
      ghost var rest := CodePoints(s, i + Width(cp));
      EncodedOneMore(cp, rest);
      assert octets + (EncodePoint(cp) + Encoded(rest)) == (octets + EncodePoint(cp)) + Encoded(rest);
      octets := PushPoint(octets, cp);
      i := i + Width(cp);
    }
    NoMorePoints(s);
  }

  lemma NoMorePoints(s: JsString)
    ensures Encoded(CodePoints(s, |s|)) == []
  {
  }

  method PushPoint(before: Bytes, cp: CodePoint) returns (octets: Bytes)
    ensures octets == before + EncodePoint(cp)
  {
    hide Octet, Or, Shr, Continuation, EncodePoint;
    var c: int, bits: bv32 := 0, 0;
    if cp <= 0x7F {
      c, bits := 0, 0x00;
    } else if cp <= 0x7FF {
      c, bits := 6, 0xC0;
    } else if cp <= 0xFFFF {
      c, bits := 12, 0xE0;
    } else {
      c, bits := 18, 0xF0;
    }
    FirstOctet(cp, c, bits);
    octets := PushContinuation(before + [Octet(Or(bits, Shr(cp, c)))], cp, c - 6);
  }

  /** The inner loop. */
  method PushContinuation(before: Bytes, cp: CodePoint, from: int) returns (octets: Bytes)
    requires from in {-6, 0, 6, 12}
    ensures octets == before + Continuation(cp, from)
  {
    hide Octet, Six, Or, And, Shr;
    var c := from;
    octets := before;
    while c >= 0
      invariant c in {-6, 0, 6, 12}
      invariant octets + Continuation(cp, c) == before + Continuation(cp, from)
      decreases c + 6
    {
      Shifts(cp, c);
      assert Continuation(cp, c) == [Mark(Six(cp, c))] + Continuation(cp, c - 6);
      octets := octets + [Octet(Or(0x80, And(Shr(cp, c), 0x3F)))];
      c := c - 6;
    }
  }

  // ---- the reference decoder ----

  predicate IsContinuation(b: bv8) { 0x80 <= b <= 0xBF }

  /** The first character of b and its length; lone surrogates only if `lax`. */
  function DecodeFirst(b: Bytes, lax: bool): (r: Option<(CodePoint, nat)>)
    ensures r.Some? ==> 1 <= r.value.1 <= |b|
  {
    if b == [] then None
    else if b[0] <= 0x7F then Some((b[0] as bv32, 1))
    else if 0xC2 <= b[0] <= 0xDF && |b| >= 2 && IsContinuation(b[1]) then
      Some((Two(b[0], b[1]), 2))
    else if 0xE0 <= b[0] <= 0xEF && |b| >= 3 && IsContinuation(b[1]) && IsContinuation(b[2]) then
      var cp := Three(b[0], b[1], b[2]);
      if cp < 0x800 || (!lax && IsSurrogate(cp)) then None else Some((cp, 3))
    else if 0xF0 <= b[0] <= 0xF4 && |b| >= 4 && IsContinuation(b[1]) && IsContinuation(b[2]) && IsContinuation(b[3]) then
      var cp := Four(b[0], b[1], b[2], b[3]);
      if cp < 0x10000 || cp > 0x10FFFF then None else Some((cp, 4))
    else None
  }

  // The payload of an octet.
  function Low(b: bv8, mask: bv32): bv32 {
    (b as bv32) & mask
  }

  function Join(high: bv32, six: bv32): bv32 {
    (high << 6) | six
  }

  function Two(a: bv8, b: bv8): (cp: bv32)
    ensures cp <= 0x10FFFF
  {
    Join(Low(a, 0x1F), Low(b, 0x3F))
  }

  function Three(a: bv8, b: bv8, c: bv8): (cp: bv32)
    ensures cp <= 0x10FFFF
  {
    Join(Join(Low(a, 0x0F), Low(b, 0x3F)), Low(c, 0x3F))
  }

  function Four(a: bv8, b: bv8, c: bv8, d: bv8): bv32 {
    Join(Join(Join(Low(a, 0x07), Low(b, 0x3F)), Low(c, 0x3F)), Low(d, 0x3F))
  }

  function Decoded(b: Bytes, lax: bool): Option<seq<CodePoint>>
    decreases |b|
  {
    if b == [] then Some([])
    else
      match DecodeFirst(b, lax)
      case None => None
      case Some(first) =>
        match Decoded(b[first.1..], lax)
        case None => None
        case Some(rest) => Some([first.0] + rest)
  }

  // ---- round trips ----

  /** Six payload bits survive the continuation mark. */
  lemma MarkedSix(cp: bv32, k: int)
    requires k in {0, 6, 12}
    ensures IsContinuation(Mark(Six(cp, k))) && Low(Mark(Six(cp, k)), 0x3F) == Six(cp, k)
  {
  }

  lemma LeadOctets(cp: bv32)
    ensures 0x80 <= cp <= 0x7FF ==> 0xC2 <= Octet(Or(0xC0, Above(cp, 6))) <= 0xDF && Low(Octet(Or(0xC0, Above(cp, 6))), 0x1F) == Above(cp, 6)
    ensures cp <= 0xFFFF ==> 0xE0 <= Octet(Or(0xE0, Above(cp, 12))) <= 0xEF && Low(Octet(Or(0xE0, Above(cp, 12))), 0x0F) == Above(cp, 12)
    ensures cp <= 0x10FFFF ==> 0xF0 <= Octet(Or(0xF0, Above(cp, 18))) <= 0xF4 && Low(Octet(Or(0xF0, Above(cp, 18))), 0x07) == Above(cp, 18)
  {
  }

  lemma Regroup(cp: bv32)
    ensures Join(Above(cp, 6), Six(cp, 0)) == cp
    ensures Join(Above(cp, 12), Six(cp, 6)) == Above(cp, 6)
    ensures Join(Above(cp, 18), Six(cp, 12)) == Above(cp, 12)
  {
    hide Above, Six, Join;
    RegroupAt6(cp);
    RegroupAt12(cp);
    RegroupAt18(cp);
  }

  lemma RegroupAt6(cp: bv32)
    ensures Join(Above(cp, 6), Six(cp, 0)) == cp
  {
  }

  lemma RegroupAt12(cp: bv32)
    ensures Join(Above(cp, 12), Six(cp, 6)) == Above(cp, 6)
  {
  }

  lemma RegroupAt18(cp: bv32)
    ensures Join(Above(cp, 18), Six(cp, 12)) == Above(cp, 12)
  {
  }

  /** Decoding an encoded code point gives it back, or nothing for a surrogate unless lax. */
  lemma PointRoundTrip(cp: CodePoint, rest: Bytes, lax: bool)
    ensures DecodeFirst(EncodePoint(cp) + rest, lax)
         == if IsSurrogate(cp) && !lax then None else Some((cp, |EncodePoint(cp)|))
  {
    hide Octet, Or, Mark, Six, Above, Low, Join, Three, IsSurrogate, IsContinuation;
    AsciiOctet(cp);
    SurrogateRange(cp);
    Ranges(cp);
    Disjoint(EncodePoint(cp)[0]);
    if cp <= 0x7F {
    } else if cp <= 0x7FF {
      DecodesTwo(cp);
    } else if cp <= 0xFFFF {
      DecodesThree(cp);
    } else {
      DecodesFour(cp);
    }
  }

  lemma DecodesTwo(cp: CodePoint)
    requires 0x80 <= cp <= 0x7FF
    ensures var b := EncodePoint(cp); |b| == 2 && 0xC2 <= b[0] <= 0xDF && IsContinuation(b[1]) && Two(b[0], b[1]) == cp
  {
    hide Octet, Or, Mark, Six, Above, Low, Join, IsContinuation;
    Ranges(cp);
    LeadOctets(cp);
    Regroup(cp);
    MarkedSix(cp, 0);
  }

  lemma DecodesThree(cp: CodePoint)
    requires 0x800 <= cp <= 0xFFFF
    ensures var b := EncodePoint(cp);
            |b| == 3 && 0xE0 <= b[0] <= 0xEF && IsContinuation(b[1]) && IsContinuation(b[2]) && Three(b[0], b[1], b[2]) == cp
  {
    hide Octet, Or, Mark, Six, Above, Low, Join, IsContinuation;
    Ranges(cp);
    LeadOctets(cp);
    Regroup(cp);
    MarkedSix(cp, 0);
    MarkedSix(cp, 6);
  }

  lemma DecodesFour(cp: CodePoint)
    requires 0x10000 <= cp
    ensures var b := EncodePoint(cp);
            && |b| == 4 && 0xF0 <= b[0] <= 0xF4 && IsContinuation(b[1]) && IsContinuation(b[2]) && IsContinuation(b[3])
            && Four(b[0], b[1], b[2], b[3]) == cp
  {
    hide Octet, Or, Mark, Six, Above, Low, Join, IsContinuation;
    Ranges(cp);
    LeadOctets(cp);
    Regroup(cp);
    MarkedSix(cp, 0);
    MarkedSix(cp, 6);
    MarkedSix(cp, 12);
  }

  lemma AsciiOctet(cp: bv32)
    ensures cp <= 0x7F ==> Octet(cp) <= 0x7F && (Octet(cp) as bv32) == cp
  {
  }

  lemma SurrogateRange(cp: bv32)
    ensures IsSurrogate(cp) ==> 0x800 <= cp <= 0xFFFF
  {
  }

  // The four kinds of first octet exclude one another.
  lemma Disjoint(b: bv8)
    ensures 0xC2 <= b ==> !(b <= 0x7F)
    ensures 0xE0 <= b ==> !(b <= 0xDF) && !(b <= 0x7F)
    ensures 0xF0 <= b ==> !(b <= 0xEF) && !(b <= 0xDF) && !(b <= 0x7F)
  {
  }

  lemma {:induction false} EncodedDecodes(cps: seq<CodePoint>, lax: bool)
    ensures Decoded(Encoded(cps), lax)
         == if lax || forall cp :: cp in cps ==> !IsSurrogate(cp) then Some(cps) else None
  {
    hide EncodePoint, DecodeFirst, IsSurrogate;
    if cps != [] {
      var rest := Encoded(cps[1..]);
      PointRoundTrip(cps[0], rest, lax);
      EncodedDecodes(cps[1..], lax);
      assert Encoded(cps)[|EncodePoint(cps[0])|..] == rest;
      assert cps == [cps[0]] + cps[1..];
    }
  }

  lemma UnitsOfCodePoint(s: JsString, i: nat)
    requires i < |s|
    ensures var cp := CodePointAt(s, i);
            i + Width(cp) <= |s| && Units(cp) == s[i..i + Width(cp)]
  {
    hide Units, IsHigh, IsLow, CodePointAt, Width;
    if IsHigh(s[i]) && i + 1 < |s| && IsLow(s[i + 1]) {
      PairOfUnits(s, i);
    } else {
      LoneUnit(s, i);
    }
  }

  lemma PairOfUnits(s: JsString, i: nat)
    requires i + 1 < |s| && IsHigh(s[i]) && IsLow(s[i + 1])
    ensures Width(CodePointAt(s, i)) == 2 && Units(CodePointAt(s, i)) == s[i..i + 2]
  {
    hide Units, IsHigh, IsLow, Joined, Width;
    JoinedSplits(s[i], s[i + 1]);
    JoinedWidth(s[i], s[i + 1]);
    assert s[i..i + 2] == [s[i], s[i + 1]];
  }

  lemma LoneUnit(s: JsString, i: nat)
    requires i < |s| && !(IsHigh(s[i]) && i + 1 < |s| && IsLow(s[i + 1]))
    ensures Width(CodePointAt(s, i)) == 1 && Units(CodePointAt(s, i)) == s[i..i + 1]
  {
    hide Units, IsHigh, IsLow, Joined, Width, Wide;
    SingleUnit(s[i]);
    SingleWidth(s[i]);
    assert s[i..i + 1] == [s[i]];
  }

  lemma JoinedWidth(high: bv16, low: bv16)
    requires IsHigh(high) && IsLow(low)
    ensures Width(Joined(high, low)) == 2
  {
  }

  lemma SingleWidth(u: bv16)
    ensures Width(Wide(u)) == 1
  {
  }

  lemma JoinedSplits(high: bv16, low: bv16)
    requires IsHigh(high) && IsLow(low)
    ensures Units(Joined(high, low)) == [high, low]
  {
  }

  lemma SingleUnit(u: bv16)
    ensures Units(Wide(u)) == [u]
  {
  }

  /** No information is lost between code units and code points, lone surrogates included. */
  lemma {:induction false} UnitsOfCodePoints(s: JsString, i: nat)
    requires i <= |s|
    ensures AllUnits(CodePoints(s, i)) == s[i..]
    decreases |s| - i
  {
    if i < |s| {
      hide Units, CodePointAt, CodePoints, Width;
      NextPoint(s, i);
      UnitsOfCodePoint(s, i);
      var cp := CodePointAt(s, i);
      var w := Width(cp);
      UnitsOfCodePoints(s, i + w);
      assert s[i..] == s[i..i + w] + s[i + w..];
      assert ([cp] + CodePoints(s, i + w))[1..] == CodePoints(s, i + w);
    } else {
      assert s[i..] == [];
    }
  }

  /** The octets of the polyfill for s. */
  function Octets(s: JsString): Bytes {
    Encoded(CodePoints(s, 0))
  }

  /**
   The encoder is right exactly on well-formed strings: there, and only there, its output is valid
   UTF-8, and the reference decoder then gives back the string.
   */
  lemma EncoderIsRightOnWellFormed(s: JsString)
    ensures Decoded(Octets(s), false).Some? <==> WellFormed(s)
    ensures WellFormed(s) ==> AllUnits(Decoded(Octets(s), false).value) == s
  {
    EncodedDecodes(CodePoints(s, 0), false);
    UnitsOfCodePoints(s, 0);
    assert s[0..] == s;
  }

  /** The encoder is injective on all strings. */
  lemma EncoderIsInjective(s: JsString, t: JsString)
    requires Octets(s) == Octets(t)
    ensures s == t
  {
    EncodedDecodes(CodePoints(s, 0), true);
    EncodedDecodes(CodePoints(t, 0), true);
    UnitsOfCodePoints(s, 0);
    UnitsOfCodePoints(t, 0);
    assert s[0..] == s && t[0..] == t;
  }

  // ---- the encoding is the only one the decoder accepts ----

  /** Taking joined bits apart again. */
  lemma Parts(high: bv32, six: bv32)
    requires six <= 0x3F && high <= 0x7FFF
    ensures var cp := Join(high, six);
            && Six(cp, 0) == six && Above(cp, 6) == high
            && Six(cp, 6) == Six(high, 0) && Above(cp, 12) == Above(high, 6)
            && Six(cp, 12) == Six(high, 6) && Above(cp, 18) == Above(high, 12)
  {
    hide Above, Six, Join;
    PartsAt0(high, six);
    PartsAt6(high, six);
    PartsAt12(high, six);
  }

  lemma PartsAt0(high: bv32, six: bv32)
    requires six <= 0x3F && high <= 0x7FFF
    ensures Six(Join(high, six), 0) == six && Above(Join(high, six), 6) == high
  {
  }

  lemma PartsAt6(high: bv32, six: bv32)
    requires six <= 0x3F && high <= 0x7FFF
    ensures Six(Join(high, six), 6) == Six(high, 0) && Above(Join(high, six), 12) == Above(high, 6)
  {
  }

  lemma PartsAt12(high: bv32, six: bv32)
    requires six <= 0x3F && high <= 0x7FFF
    ensures Six(Join(high, six), 12) == Six(high, 6) && Above(Join(high, six), 18) == Above(high, 12)
  {
  }

  lemma Remarked(b: bv8)
    ensures IsContinuation(b) ==> Low(b, 0x3F) <= 0x3F && Mark(Low(b, 0x3F)) == b
    ensures 0xC2 <= b <= 0xDF ==> 0x02 <= Low(b, 0x1F) <= 0x1F && Octet(Or(0xC0, Low(b, 0x1F))) == b
    ensures 0xE0 <= b <= 0xEF ==> Low(b, 0x0F) <= 0x0F && Octet(Or(0xE0, Low(b, 0x0F))) == b
    ensures 0xF0 <= b <= 0xF4 ==> Low(b, 0x07) <= 0x07 && Octet(Or(0xF0, Low(b, 0x07))) == b
  {
  }

  lemma JoinBounds(high: bv32, six: bv32)
    requires six <= 0x3F
    ensures 0x02 <= high <= 0x1F ==> 0x80 <= Join(high, six) <= 0x7FF
    ensures high <= 0x0F ==> Join(high, six) <= 0x3FF
    ensures high <= 0x3FF ==> Join(high, six) <= 0xFFFF
    ensures high <= 0x07 ==> Join(high, six) <= 0x1FF
    ensures high <= 0x1FF ==> Join(high, six) <= 0x7FFF
  {
  }

  lemma TwoEncodes(a: bv8, b: bv8)
    requires 0xC2 <= a <= 0xDF && IsContinuation(b)
    ensures EncodePoint(Two(a, b)) == [a, b] && Two(a, b) <= 0x7FF
  {
    hide Octet, Or, Mark, Six, Above, Low, Join, IsContinuation;
    Remarked(a);
    Remarked(b);
    JoinBounds(Low(a, 0x1F), Low(b, 0x3F));
    SmallHigh(Low(a, 0x1F));
    Parts(Low(a, 0x1F), Low(b, 0x3F));
    Ranges(Two(a, b));
  }

  lemma SmallHigh(high: bv32)
    ensures high <= 0x1F ==> high <= 0x7FFF
    ensures high <= 0x3FF ==> high <= 0x7FFF
    ensures high <= 0x1FF ==> high <= 0x7FFF
    ensures high <= 0x0F ==> high <= 0x7FFF
    ensures high <= 0x07 ==> high <= 0x7FFF
  {
  }

  lemma Ranges(cp: bv32)
    ensures 0x80 <= cp ==> !(cp <= 0x7F)
    ensures 0x800 <= cp ==> !(cp <= 0x7F) && !(cp <= 0x7FF)
    ensures 0x10000 <= cp ==> !(cp <= 0x7F) && !(cp <= 0x7FF) && !(cp <= 0xFFFF)
  {
  }

  lemma ThreeEncodes(a: bv8, b: bv8, c: bv8)
    requires 0xE0 <= a <= 0xEF && IsContinuation(b) && IsContinuation(c) && Three(a, b, c) >= 0x800
    ensures EncodePoint(Three(a, b, c)) == [a, b, c]
  {
    hide Octet, Or, Mark, Six, Above, Low, Join, IsContinuation;
    Remarked(a);
    Remarked(b);
    Remarked(c);
    var high := Join(Low(a, 0x0F), Low(b, 0x3F));
    JoinBounds(Low(a, 0x0F), Low(b, 0x3F));
    SmallHigh(Low(a, 0x0F));
    Parts(Low(a, 0x0F), Low(b, 0x3F));
    JoinBounds(high, Low(c, 0x3F));
    SmallHigh(high);
    Parts(high, Low(c, 0x3F));
    Ranges(Three(a, b, c));
  }

  lemma FourEncodes(a: bv8, b: bv8, c: bv8, d: bv8)
    requires 0xF0 <= a <= 0xF4 && IsContinuation(b) && IsContinuation(c) && IsContinuation(d)
    requires 0x10000 <= Four(a, b, c, d) <= 0x10FFFF
    ensures EncodePoint(Four(a, b, c, d)) == [a, b, c, d]
  {
    hide Octet, Or, Mark, Six, Above, Low, Join, IsContinuation;
    Remarked(a);
    Remarked(b);
    Remarked(c);
    Remarked(d);
    var top := Join(Low(a, 0x07), Low(b, 0x3F));
    JoinBounds(Low(a, 0x07), Low(b, 0x3F));
    SmallHigh(Low(a, 0x07));
    Parts(Low(a, 0x07), Low(b, 0x3F));
    LowThree(top, Low(c, 0x3F), Low(d, 0x3F));
    Ranges(Four(a, b, c, d));
  }

  lemma LowThree(top: bv32, y: bv32, z: bv32)
    requires top <= 0x1FF && y <= 0x3F && z <= 0x3F
    ensures var cp := Join(Join(top, y), z);
            Six(cp, 0) == z && Six(cp, 6) == y && Six(cp, 12) == Six(top, 0) && Above(cp, 18) == Above(top, 6)
  {
    hide Six, Above, Join;
    JoinBounds(top, y);
    SmallHigh(top);
    Parts(top, y);
    Parts(Join(top, y), z);
  }

  lemma OneEncodes(a: bv8)
    requires a <= 0x7F
    ensures (a as bv32) <= 0x7F && EncodePoint(a as bv32) == [a]
  {
  }

  lemma FirstEncodes(b: Bytes)
    requires DecodeFirst(b, false).Some?
    ensures var (cp, n) := DecodeFirst(b, false).value; EncodePoint(cp) == b[..n] && !IsSurrogate(cp)
  {
    if b[0] <= 0x7F {
      OneEncodes(b[0]);
    } else if b[0] <= 0xDF {
      TwoEncodes(b[0], b[1]);
      assert !IsSurrogate(Two(b[0], b[1]));
    } else if b[0] <= 0xEF {
      ThreeEncodes(b[0], b[1], b[2]);
    } else {
      FourEncodes(b[0], b[1], b[2], b[3]);
    }
  }

  /** Every valid UTF-8 text is the encoding of what it decodes to, so nothing else could be output. */
  lemma {:induction false} DecodedEncodes(b: Bytes)
    requires Decoded(b, false).Some?
    ensures Encoded(Decoded(b, false).value) == b
    decreases |b|
  {
    hide DecodeFirst, EncodePoint;
    if b != [] {
      var (cp, n) := DecodeFirst(b, false).value;
      FirstEncodes(b);
      DecodedEncodes(b[n..]);
      assert b == b[..n] + b[n..];
    }
  }
}

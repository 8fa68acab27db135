/**
 The two orders on player ids: the browser compares strings by UTF-16 code units, the server by
 the bytes of UTF-8. Both break ties between host candidates.
 */
module IdOrder {
  import opened BitOrder
  import opened Utf8

  /** Lexicographic order over an order of elements. */
  predicate Precedes<T(==)>(lt: (T, T) -> bool, a: seq<T>, b: seq<T>) {
    b != [] && (a == [] || lt(a[0], b[0]) || (a[0] == b[0] && Precedes(lt, a[1..], b[1..])))
  }

  predicate PointBelow(x: CodePoint, y: CodePoint) { Below32(x, y) }

  /** How the browser compares two strings. */
  predicate LtUnits(a: JsString, b: JsString) { Precedes(Below16, a, b) }

  /** How the server compares them. */
  predicate LtBytes(a: Bytes, b: Bytes) { Precedes(Below8, a, b) }

  predicate LtPoints(a: seq<CodePoint>, b: seq<CodePoint>) { Precedes(PointBelow, a, b) }

  lemma {:induction false} SamePrefix<T>(lt: (T, T) -> bool, p: seq<T>, a: seq<T>, b: seq<T>)
    requires forall x :: x in p ==> !lt(x, x)
    ensures Precedes(lt, p + a, p + b) == Precedes(lt, a, b)
  {
    if p == [] {
      assert p + a == a && p + b == b;
    } else {
      assert (p + a)[1..] == p[1..] + a && (p + b)[1..] == p[1..] + b;
      SamePrefix(lt, p[1..], a, b);
    }
  }

  /** The first different element decides. */
  lemma {:induction false} FirstDifference<T>(lt: (T, T) -> bool, a: seq<T>, b: seq<T>, k: nat)
    requires k < |a| && k < |b| && a[..k] == b[..k]
    requires forall x :: x in a[..k] ==> !lt(x, x)
    requires a[k] != b[k] && lt(a[k], b[k]) && !lt(b[k], a[k])
    ensures Precedes(lt, a, b) && !Precedes(lt, b, a)
  {
    if k > 0 {
      assert a[0] == a[..k][0] && b[0] == b[..k][0];
      assert a[1..][..k - 1] == a[..k][1..] && b[1..][..k - 1] == b[..k][1..];
      FirstDifference(lt, a[1..], b[1..], k - 1);
    }
  }

  /** lt is a strict total order. */
  ghost predicate Total<T(!new)>(lt: (T, T) -> bool) {
    && (forall x, y :: lt(x, y) || x == y || lt(y, x))
    && (forall x, y :: lt(x, y) ==> x != y && !lt(y, x))
    && (forall x, y, z :: lt(x, y) && lt(y, z) ==> lt(x, z))
  }

  lemma {:induction false} PrecedesTotal<T(!new)>(lt: (T, T) -> bool, a: seq<T>, b: seq<T>)
    requires Total(lt)
    ensures Precedes(lt, a, b) || a == b || Precedes(lt, b, a)
    ensures !(Precedes(lt, a, b) && Precedes(lt, b, a))
    ensures !Precedes(lt, a, a)
  {
    if a != [] {
      PrecedesTotal(lt, a[1..], a[1..]);
    }
    if a != [] && b != [] {
      PrecedesTotal(lt, a[1..], b[1..]);
      assert a == [a[0]] + a[1..] && b == [b[0]] + b[1..];
    }
  }

  lemma {:induction false} PrecedesTransitive<T(!new)>(lt: (T, T) -> bool, a: seq<T>, b: seq<T>, c: seq<T>)
    requires Total(lt) && Precedes(lt, a, b) && Precedes(lt, b, c)
    ensures Precedes(lt, a, c)
  {
    if a != [] && a[0] == b[0] == c[0] {
      PrecedesTransitive(lt, a[1..], b[1..], c[1..]);
    }
  }

  lemma BytesTotal()
    ensures Total(Below8)
  {
    hide Below8;
    forall x, y ensures (Below8(x, y) || x == y || Below8(y, x)) && (Below8(x, y) ==> x != y && !Below8(y, x)) {
      Total8(x, y);
      Total8(x, x);
    }
    forall x, y, z | Below8(x, y) && Below8(y, z) ensures Below8(x, z) {
      Transitive8(x, y, z);
    }
  }

  lemma UnitsTotal()
    ensures Total(Below16)
  {
    hide Below16;
    forall x, y ensures (Below16(x, y) || x == y || Below16(y, x)) && (Below16(x, y) ==> x != y && !Below16(y, x)) {
      Total16(x, y);
      Total16(x, x);
    }
    forall x, y, z | Below16(x, y) && Below16(y, z) ensures Below16(x, z) {
      Transitive16(x, y, z);
    }
  }

  // ---- bytes ----

  lemma HighPartFirst(p: bv32, q: bv32)
    requires Below32(Above(q, 6), Above(p, 6))
    ensures Below32(q, p)
  {
  }

  lemma LowPartNext(p: bv32, q: bv32)
    requires Below32(p, q) && Above(p, 6) == Above(q, 6)
    ensures Below32(Six(p, 0), Six(q, 0))
  {
  }

  lemma PartsAtSix(p: bv32)
    ensures Above(p, 12) == Above(Above(p, 6), 6) && Six(p, 6) == Six(Above(p, 6), 0)
    ensures Above(p, 18) == Above(Above(p, 12), 6) && Six(p, 12) == Six(Above(p, 12), 0)
  {
  }

  lemma NextPart(p: bv32, q: bv32)
    requires Below32(p, q)
    ensures Below32(Above(p, 6), Above(q, 6)) || (Above(p, 6) == Above(q, 6) && Below32(Six(p, 0), Six(q, 0)))
  {
    hide Above, Six, Below32;
    Total32(p, q);
    Total32(Above(p, 6), Above(q, 6));
    if Below32(Above(q, 6), Above(p, 6)) {
      HighPartFirst(p, q);
    } else if Above(p, 6) == Above(q, 6) {
      LowPartNext(p, q);
    }
  }

  lemma NextPartAfterSix(p: bv32, q: bv32)
    requires Below32(Above(p, 6), Above(q, 6))
    ensures Below32(Above(p, 12), Above(q, 12)) || (Above(p, 12) == Above(q, 12) && Below32(Six(p, 6), Six(q, 6)))
  {
    hide Above, Six, Below32;
    PartsAtSix(p);
    PartsAtSix(q);
    NextPart(Above(p, 6), Above(q, 6));
  }

  lemma NextPartAfterTwelve(p: bv32, q: bv32)
    requires Below32(Above(p, 12), Above(q, 12))
    ensures Below32(Above(p, 18), Above(q, 18)) || (Above(p, 18) == Above(q, 18) && Below32(Six(p, 12), Six(q, 12)))
  {
    hide Above, Six, Below32;
    PartsAtSix(p);
    PartsAtSix(q);
    NextPart(Above(p, 12), Above(q, 12));
  }

  lemma MarkGrows(x: bv32, y: bv32)
    requires Below32(x, y) && y <= 0x3F
    ensures Below8(Mark(x), Mark(y))
  {
  }

  lemma LeadGrows(base: bv32, x: bv32, y: bv32)
    requires (base == 0xC0 && y <= 0x1F) || (base == 0xE0 && y <= 0x0F) || (base == 0xF0 && y <= 0x07)
    requires Below32(x, y)
    ensures Below8(Octet(Or(base, x)), Octet(Or(base, y)))
  {
  }

  lemma PartsAreSmall(q: CodePoint)
    ensures q <= 0x7FF ==> Above(q, 6) <= 0x1F
    ensures q <= 0xFFFF ==> Above(q, 12) <= 0x0F
    ensures Above(q, 18) <= 0x07
    ensures Six(q, 0) <= 0x3F && Six(q, 6) <= 0x3F && Six(q, 12) <= 0x3F
  {
  }

  /** How many octets a character takes. */
  function Length(cp: CodePoint): nat {
    if cp <= 0x7F then 1 else if cp <= 0x7FF then 2 else if cp <= 0xFFFF then 3 else 4
  }

  /** More octets, larger first octet: the lead ranges of the four lengths follow one another. */
  lemma LongerIsLarger(p: CodePoint, q: CodePoint)
    requires Length(p) < Length(q)
    ensures Below8(EncodePoint(p)[0], EncodePoint(q)[0])
  {
    hide Octet, Or, Mark, Six, Above;
    AsciiOctet(p);
    LeadOctets(p);
    LeadOctets(q);
  }

  lemma LengthGrows(p: CodePoint, q: CodePoint)
    requires Below32(p, q)
    ensures Length(p) <= Length(q)
  {
  }

  /** Where two encodings first differ. */
  predicate BelowAt(b: Bytes, c: Bytes, k: nat) {
    k < |b| && k < |c| && b[..k] == c[..k] && Below8(b[k], c[k])
  }

  lemma OneBelow(p: CodePoint, q: CodePoint)
    requires Below32(p, q) && Length(p) == Length(q) == 1
    ensures BelowAt(EncodePoint(p), EncodePoint(q), 0)
  {
    AsciiOctet(p);
    AsciiOctet(q);
    hide Octet;
  }

  lemma TwoBelow(p: CodePoint, q: CodePoint) returns (k: nat)
    requires Below32(p, q) && Length(p) == Length(q) == 2
    ensures BelowAt(EncodePoint(p), EncodePoint(q), k)
  {
    hide Octet, Or, Mark, Six, Above, Below32, Below8;
    PartsAreSmall(q);
    NextPart(p, q);
    k := 0;
    if Below32(Above(p, 6), Above(q, 6)) {
      LeadGrows(0xC0, Above(p, 6), Above(q, 6));
    } else {
      MarkGrows(Six(p, 0), Six(q, 0));
      k := 1;
    }
  }

  lemma ThreeBelow(p: CodePoint, q: CodePoint) returns (k: nat)
    requires Below32(p, q) && Length(p) == Length(q) == 3
    ensures BelowAt(EncodePoint(p), EncodePoint(q), k)
  {
    hide Octet, Or, Mark, Six, Above, Below32, Below8;
    PartsAreSmall(q);
    NextPart(p, q);
    if !Below32(Above(p, 6), Above(q, 6)) {
      PartsAtSix(p);
      PartsAtSix(q);
      MarkGrows(Six(p, 0), Six(q, 0));
      k := 2;
    } else {
      NextPartAfterSix(p, q);
      if Below32(Above(p, 12), Above(q, 12)) {
        LeadGrows(0xE0, Above(p, 12), Above(q, 12));
        k := 0;
      } else {
        MarkGrows(Six(p, 6), Six(q, 6));
        k := 1;
      }
    }
  }

  lemma FourBelow(p: CodePoint, q: CodePoint) returns (k: nat)
    requires Below32(p, q) && Length(p) == Length(q) == 4
    ensures BelowAt(EncodePoint(p), EncodePoint(q), k)
  {
    hide Octet, Or, Mark, Six, Above, Below32, Below8;
    PartsAreSmall(q);
    PartsAtSix(p);
    PartsAtSix(q);
    NextPart(p, q);
    if !Below32(Above(p, 6), Above(q, 6)) {
      MarkGrows(Six(p, 0), Six(q, 0));
      k := 3;
    } else {
      NextPartAfterSix(p, q);
      if !Below32(Above(p, 12), Above(q, 12)) {
        MarkGrows(Six(p, 6), Six(q, 6));
        k := 2;
      } else {
        NextPartAfterTwelve(p, q);
        if Below32(Above(p, 18), Above(q, 18)) {
          LeadGrows(0xF0, Above(p, 18), Above(q, 18));
          k := 0;
        } else {
          MarkGrows(Six(p, 12), Six(q, 12));
          k := 1;
        }
      }
    }
  }

  lemma EncodingsBelow(p: CodePoint, q: CodePoint) returns (k: nat)
    requires Below32(p, q)
    ensures BelowAt(EncodePoint(p), EncodePoint(q), k)
  {
    LengthGrows(p, q);
    hide EncodePoint, Below32, Below8, Length;
    k := 0;
    if Length(p) < Length(q) {
      LongerIsLarger(p, q);
    } else if Length(p) == 1 {
      OneBelow(p, q);
    } else if Length(p) == 2 {
      k := TwoBelow(p, q);
    } else if Length(p) == 3 {
      k := ThreeBelow(p, q);
    } else {
      k := FourBelow(p, q);
    }
  }

  /** Different characters are ordered by their first different octet as they are by value. */
  lemma PointsOrderedByBytes(p: CodePoint, q: CodePoint, r: Bytes, s: Bytes)
    requires PointBelow(p, q)
    ensures LtBytes(EncodePoint(p) + r, EncodePoint(q) + s) && !LtBytes(EncodePoint(q) + s, EncodePoint(p) + r)
  {
    hide EncodePoint, Below32, Below8;
    var k := EncodingsBelow(p, q);
    BytesDecide(EncodePoint(p), EncodePoint(q), k, r, s);
  }

  lemma BytesDecide(b: Bytes, c: Bytes, k: nat, r: Bytes, s: Bytes)
    requires BelowAt(b, c, k)
    ensures LtBytes(b + r, c + s) && !LtBytes(c + s, b + r)
  {
    hide Below8;
    assert (b + r)[..k] == b[..k] && (c + s)[..k] == c[..k];
    forall x | x in (b + r)[..k] ensures !Below8(x, x) { Total8(x, x); }
    Total8((b + r)[k], (c + s)[k]);
    FirstDifference(Below8, b + r, c + s, k);
  }

  lemma LtBytesSamePrefix(p: Bytes, a: Bytes, b: Bytes)
    ensures LtBytes(p + a, p + b) == LtBytes(a, b)
  {
    hide Below8;
    forall x | x in p ensures !Below8(x, x) { Total8(x, x); }
    SamePrefix(Below8, p, a, b);
  }

  /** The byte order of UTF-8 is the order of code points. */
  lemma {:induction false} BytesOrderIsPointOrder(x: seq<CodePoint>, y: seq<CodePoint>)
    ensures LtBytes(Encoded(x), Encoded(y)) == LtPoints(x, y)
  {
    hide EncodePoint, Below32, Below8;
    if x != [] && y != [] {
      Total32(x[0], y[0]);
      if x[0] == y[0] {
        LtBytesSamePrefix(EncodePoint(x[0]), Encoded(x[1..]), Encoded(y[1..]));
        BytesOrderIsPointOrder(x[1..], y[1..]);
      } else if PointBelow(x[0], y[0]) {
        PointsOrderedByBytes(x[0], y[0], Encoded(x[1..]), Encoded(y[1..]));
      } else {
        PointsOrderedByBytes(y[0], x[0], Encoded(y[1..]), Encoded(x[1..]));
      }
    }
  }

  // ---- code units ----

  /** A character beyond the first plane against one of U+E000 to U+FFFF. */
  predicate Crossed(p: CodePoint, q: CodePoint) {
    (p >= 0x10000 && 0xE000 <= q <= 0xFFFF) || (q >= 0x10000 && 0xE000 <= p <= 0xFFFF)
  }

  /** The first difference, if any, is not such a pair. */
  predicate Comparable(a: seq<CodePoint>, b: seq<CodePoint>) {
    a == [] || b == [] || (if a[0] == b[0] then Comparable(a[1..], b[1..]) else !Crossed(a[0], b[0]))
  }

  predicate UnitsBelowAt(b: JsString, c: JsString, k: nat) {
    k < |b| && k < |c| && b[..k] == c[..k] && Below16(b[k], c[k])
  }

  lemma SinglesBelow(p: CodePoint, q: CodePoint)
    requires Below32(p, q) && q < 0x10000
    ensures UnitsBelowAt(Units(p), Units(q), 0)
  {
    assert Below16((p & 0xFFFF) as bv16, (q & 0xFFFF) as bv16);
  }

  function High(cp: bv32): bv16 { (0xD800 + (((cp - 0x10000) >> 10) & 0x3FF)) as bv16 }

  function Low(cp: bv32): bv16 { (0xDC00 + ((cp - 0x10000) & 0x3FF)) as bv16 }

  lemma HalvesBelow(p: CodePoint, q: CodePoint)
    requires 0x10000 <= p && 0x10000 <= q && Below16(High(q), High(p))
    ensures Below32(q, p)
  {
  }

  lemma LowHalvesBelow(p: CodePoint, q: CodePoint)
    requires 0x10000 <= p && Below32(p, q) && High(p) == High(q)
    ensures Below16(Low(p), Low(q))
  {
  }

  lemma PairUnits(cp: CodePoint)
    requires cp >= 0x10000
    ensures Units(cp) == [High(cp), Low(cp)]
  {
  }

  lemma PairsBelow(p: CodePoint, q: CodePoint) returns (k: nat)
    requires 0x10000 <= p && 0x10000 <= q && Below32(p, q)
    ensures UnitsBelowAt(Units(p), Units(q), k)
  {
    hide High, Low, Units, Below32, Below16;
    PairUnits(p);
    PairUnits(q);
    Total32(p, q);
    Total16(High(p), High(q));
    k := 0;
    if Below16(High(q), High(p)) {
      HalvesBelow(p, q);
    } else if High(p) == High(q) {
      LowHalvesBelow(p, q);
      k := 1;
    }
  }

  lemma HighIsSurrogate(q: CodePoint)
    requires q >= 0x10000
    ensures IsHigh(High(q))
  {
  }

  lemma SingleUnit(p: CodePoint)
    requires p < 0x10000 && !IsSurrogate(p)
    ensures p < 0xE000 ==> ((p & 0xFFFF) as bv16) < 0xD800
    ensures p >= 0xE000 ==> ((p & 0xFFFF) as bv16) >= 0xE000
  {
  }

  // A lone unit against the high half of a pair.
  lemma MixedBelow(p: CodePoint, q: CodePoint)
    requires p < 0x10000 <= q && !IsSurrogate(p)
    ensures p < 0xE000 ==> UnitsBelowAt(Units(p), Units(q), 0)
    ensures p >= 0xE000 ==> UnitsBelowAt(Units(q), Units(p), 0)
  {
    SingleUnit(p);
    HighIsSurrogate(q);
    PairUnits(q);
    hide High, Low;
  }

  lemma UnitsDecide(b: JsString, c: JsString, k: nat, r: JsString, s: JsString)
    requires UnitsBelowAt(b, c, k)
    ensures LtUnits(b + r, c + s) && !LtUnits(c + s, b + r)
  {
    hide Below16;
    assert (b + r)[..k] == b[..k] && (c + s)[..k] == c[..k];
    forall x | x in (b + r)[..k] ensures !Below16(x, x) { Total16(x, x); }
    Total16((b + r)[k], (c + s)[k]);
    FirstDifference(Below16, b + r, c + s, k);
  }

  lemma LtUnitsSamePrefix(p: JsString, a: JsString, b: JsString)
    ensures LtUnits(p + a, p + b) == LtUnits(a, b)
  {
    hide Below16;
    forall x | x in p ensures !Below16(x, x) { Total16(x, x); }
    SamePrefix(Below16, p, a, b);
  }

  datatype Planes = BothLow | BothHigh | Apart | Cross

  /** The four ways a smaller and a larger character can lie. */
  function PlanesOf(p: CodePoint, q: CodePoint): Planes {
    if q < 0x10000 then BothLow else if p >= 0x10000 then BothHigh else if p < 0xE000 then Apart else Cross
  }

  lemma PlanesCross(p: CodePoint, q: CodePoint)
    requires Below32(p, q)
    ensures Crossed(p, q) <==> PlanesOf(p, q) == Cross
  {
  }

  lemma PlanesDecide(p: CodePoint, q: CodePoint) returns (k: nat)
    requires Below32(p, q) && !IsSurrogate(p) && !IsSurrogate(q)
    ensures if PlanesOf(p, q) == Cross then UnitsBelowAt(Units(q), Units(p), k) else UnitsBelowAt(Units(p), Units(q), k)
  {
    hide Units, Below32, Below16;
    k := 0;
    if q < 0x10000 {
      SinglesBelow(p, q);
    } else if p >= 0x10000 {
      k := PairsBelow(p, q);
    } else {
      MixedBelow(p, q);
    }
  }

  /** Code units order two characters by value, unless they cross; then the other way round. */
  lemma PointsOrderedByUnits(p: CodePoint, q: CodePoint, r: JsString, s: JsString)
    requires PointBelow(p, q) && !IsSurrogate(p) && !IsSurrogate(q)
    ensures LtUnits(Units(p) + r, Units(q) + s) <==> !Crossed(p, q)
    ensures LtUnits(Units(q) + s, Units(p) + r) <==> Crossed(p, q)
  {
    hide Units, Below32, Below16, PlanesOf, Crossed, IsSurrogate;
    PlanesCross(p, q);
    var k := PlanesDecide(p, q);
    if PlanesOf(p, q) == Cross {
      UnitsDecide(Units(q), Units(p), k, s, r);
    } else {
      UnitsDecide(Units(p), Units(q), k, r, s);
    }
  }

  lemma CrossedEitherWay(p: CodePoint, q: CodePoint)
    ensures Crossed(p, q) == Crossed(q, p)
  {
  }

  lemma UnitsNonEmpty(cp: CodePoint)
    ensures Units(cp) != []
  {
  }

  lemma {:induction false} UnitsOrderWhenComparable(x: seq<CodePoint>, y: seq<CodePoint>)
    requires forall cp :: cp in x || cp in y ==> !IsSurrogate(cp)
    ensures (LtUnits(AllUnits(x), AllUnits(y)) <==> LtPoints(x, y)) <==> Comparable(x, y)
  {
    hide Units, Below32, Below16, IsSurrogate, Crossed;
    if x == [] || y == [] {
      if x != [] { UnitsNonEmpty(x[0]); }
      if y != [] { UnitsNonEmpty(y[0]); }
    } else {
      Total32(x[0], y[0]);
      CrossedEitherWay(x[0], y[0]);
      if x[0] == y[0] {
        LtUnitsSamePrefix(Units(x[0]), AllUnits(x[1..]), AllUnits(y[1..]));
        UnitsOrderWhenComparable(x[1..], y[1..]);
      } else if PointBelow(x[0], y[0]) {
        PointsOrderedByUnits(x[0], y[0], AllUnits(x[1..]), AllUnits(y[1..]));
      } else {
        PointsOrderedByUnits(y[0], x[0], AllUnits(y[1..]), AllUnits(x[1..]));
      }
    }
  }

  /**
   The browser and the server order two ids alike exactly when, at the first character where the
   ids differ, it is not a character beyond U+FFFF against one of U+E000 to U+FFFF.
   */
  lemma BrowserAndServerAgree(s: JsString, t: JsString)
    requires WellFormed(s) && WellFormed(t)
    ensures (LtUnits(s, t) <==> LtBytes(Octets(s), Octets(t))) <==> Comparable(CodePoints(s, 0), CodePoints(t, 0))
  {
    var x, y := CodePoints(s, 0), CodePoints(t, 0);
    UnitsOfCodePoints(s, 0);
    UnitsOfCodePoints(t, 0);
    assert s[0..] == s && t[0..] == t;
    BytesOrderIsPointOrder(x, y);
    UnitsOrderWhenComparable(x, y);
  }

  lemma {:induction false} AsciiPoints(s: JsString, i: nat)
    requires i <= |s| && forall u :: u in s ==> u < 0x80
    ensures forall cp :: cp in CodePoints(s, i) ==> cp < 0x80
    decreases |s| - i
  {
    if i < |s| {
      assert s[i] in s;
      AsciiPoints(s, i + 1);
    }
  }

  lemma {:induction false} AsciiIsComparable(a: seq<CodePoint>, b: seq<CodePoint>)
    requires forall cp :: cp in a ==> cp < 0x80
    requires forall cp :: cp in b ==> cp < 0x80
    ensures Comparable(a, b)
  {
    if a != [] && b != [] {
      assert a[0] in a && b[0] in b;
      assert forall cp :: cp in a[1..] ==> cp in a;
      assert forall cp :: cp in b[1..] ==> cp in b;
      AsciiIsComparable(a[1..], b[1..]);
    }
  }

  /** So they agree on all ids of the form the server mints, which are ASCII. */
  lemma AsciiIdsAgree(s: JsString, t: JsString)
    requires forall u :: u in s || u in t ==> u < 0x80
    ensures WellFormed(s) && WellFormed(t)
    ensures LtUnits(s, t) <==> LtBytes(Octets(s), Octets(t))
  {
    AsciiPoints(s, 0);
    AsciiPoints(t, 0);
    AsciiIsComparable(CodePoints(s, 0), CodePoints(t, 0));
    BrowserAndServerAgree(s, t);
  }
}

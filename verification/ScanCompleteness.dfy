/** When the lexicographic scan of the stroke log misses nothing. */
module ScanCompleteness {
  import opened Prelude
  import opened Models
  import opened ReplicaSpec
  import opened StrokeLogs

  /** The number read off the first m digits of n, all of n when it has no more than m. */
  function Leading(n: nat, m: nat): nat
    requires m >= 1
  {
    if |Decimal(n)| <= m then n else Leading(n / 10, m)
  }

  function PowerOfTen(k: nat): (p: nat)
    ensures p >= 1
  {
    if k == 0 then 1 else 10 * PowerOfTen(k - 1)
  }

  /** A stroke of this round at or above f is in the log. */
  ghost predicate Stored(store: map<Units, Stroke>, room: Units, round: nat, from: nat, index: nat) {
    index >= from && StrokeKey(room, round, index) in store
  }

  // ---- comparing numerals ----

  lemma {:induction false} LexOfExtension(a: Units, b: Units, c: Units)
    requires |a| == |b|
    ensures LexLeq(a, b + c) <==> LexLeq(a, b)
  {
    if a != [] {
      assert (b + c)[1..] == b[1..] + c;
      LexOfExtension(a[1..], b[1..], c);
    } else {
      assert a == [] == b;
    }
  }

  lemma {:induction false} LexOfLastUnit(p: Units, x: int, q: Units, y: int)
    requires |p| == |q|
    ensures LexLeq(p + [x], q + [y]) <==> (p == q && x <= y) || (p != q && LexLeq(p, q))
  {
    if p != [] {
      assert (p + [x])[1..] == p[1..] + [x] && (q + [y])[1..] == q[1..] + [y];
      LexOfLastUnit(p[1..], x, q[1..], y);
      assert p == [p[0]] + p[1..] && q == [q[0]] + q[1..];
    } else {
      assert p + [x] == [x] && q + [y] == [y];
      assert LexLeq([x][1..], [y][1..]);
    }
  }

  lemma DecimalIsInjective(m: nat, n: nat)
    requires Decimal(m) == Decimal(n)
    ensures m == n
  {
    NumeralReadsBack(m);
    NumeralReadsBack(n);
  }

  /** Numerals with as many digits compare like numbers. */
  lemma {:induction false} SameLengthComparesAsNumbers(m: nat, n: nat)
    requires |Decimal(m)| == |Decimal(n)|
    ensures LexLeq(Decimal(m), Decimal(n)) <==> m <= n
  {
    if m < 10 {
      assert n < 10;
      LexOfLastUnit([], 0x30 + m, [], 0x30 + n);
      assert [] + [0x30 + m] == Decimal(m) && [] + [0x30 + n] == Decimal(n);
    } else {
      assert n >= 10;
      SameLengthComparesAsNumbers(m / 10, n / 10);
      LexOfLastUnit(Decimal(m / 10), 0x30 + m % 10, Decimal(n / 10), 0x30 + n % 10);
      if Decimal(m / 10) == Decimal(n / 10) {
        DecimalIsInjective(m / 10, n / 10);
      }
    }
  }

  lemma {:induction false} LeadingDigits(n: nat, m: nat)
    requires 1 <= m <= |Decimal(n)|
    ensures Decimal(Leading(n, m)) == Decimal(n)[..m]
  {
    if |Decimal(n)| > m {
      LeadingDigits(n / 10, m);
      assert Decimal(n)[..m] == Decimal(n / 10)[..m];
    } else {
      assert Decimal(n)[..m] == Decimal(n);
    }
  }

  lemma {:induction false} MoreDigitsForMore(m: nat, n: nat)
    requires m <= n
    ensures |Decimal(m)| <= |Decimal(n)|
  {
    if m >= 10 {
      MoreDigitsForMore(m / 10, n / 10);
    }
  }

  /** Where f's numeral stands against that of a larger number is decided by the larger one's leading digits. */
  lemma LexIsLeadingDigits(from: nat, n: nat)
    requires from <= n
    ensures LexLeq(Decimal(from), Decimal(n)) <==> from <= Leading(n, |Decimal(from)|)
  {
    var m := |Decimal(from)|;
    MoreDigitsForMore(from, n);
    LeadingDigits(n, m);
    assert Decimal(n) == Decimal(n)[..m] + Decimal(n)[m..];
    LexOfExtension(Decimal(from), Decimal(n)[..m], Decimal(n)[m..]);
    SameLengthComparesAsNumbers(from, Leading(n, m));
  }

  // ---- completeness ----

  /**
   The scan from f returns every stored stroke at or above f exactly when none of their indices
   begins with digits that read as a number below f.
   */
  lemma ScanMissesNothingIff(store: map<Units, Stroke>, room: Units, round: nat, from: nat)
    ensures (forall i: nat :: Stored(store, room, round, from, i) ==> Scanned(store, room, round, from, Indexed(i, store[StrokeKey(room, round, i)])))
       <==> (forall i: nat :: Stored(store, room, round, from, i) ==> from <= Leading(i, |Decimal(from)|))
  {
    forall i: nat | Stored(store, room, round, from, i)
      ensures Scanned(store, room, round, from, Indexed(i, store[StrokeKey(room, round, i)])) <==> from <= Leading(i, |Decimal(from)|)
    {
      LexIsLeadingDigits(from, i);
    }
  }

  lemma {:induction false} DigitsOfPower(k: nat)
    ensures |Decimal(PowerOfTen(k))| == k + 1
  {
    if k > 0 {
      DigitsOfPower(k - 1);
      assert PowerOfTen(k) / 10 == PowerOfTen(k - 1);
    }
  }

  lemma {:induction false} AtLeastThePower(n: nat, k: nat)
    requires |Decimal(n)| == k + 1 && (k > 0 || n > 0)
    ensures PowerOfTen(k) <= n
  {
    if k > 0 && n / 10 > 0 {
      AtLeastThePower(n / 10, k - 1);
    }
  }

  lemma {:induction false} LeadingHasMDigits(n: nat, m: nat)
    requires 1 <= m <= |Decimal(n)|
    ensures |Decimal(Leading(n, m))| == m && (n > 0 ==> Leading(n, m) > 0)
  {
    if |Decimal(n)| > m {
      LeadingHasMDigits(n / 10, m);
    }
  }

  /** So a scan from 0, from a power of ten, or among indices of one length is complete. */
  lemma ScanCompleteCases(store: map<Units, Stroke>, room: Units, round: nat, from: nat, i: nat)
    requires Stored(store, room, round, from, i)
    requires from == 0 || (exists k :: from == PowerOfTen(k)) || |Decimal(i)| == |Decimal(from)|
    ensures Scanned(store, room, round, from, Indexed(i, store[StrokeKey(room, round, i)]))
  {
    var m := |Decimal(from)|;
    MoreDigitsForMore(from, i);
    LeadingHasMDigits(i, m);
    LexIsLeadingDigits(from, i);
    if k :| from == PowerOfTen(k) {
      DigitsOfPower(k);
      AtLeastThePower(Leading(i, m), k);
    }
  }

  /** But a guest asking from stroke 2 is never sent stroke 10. */
  lemma ScanFromTwoMissesTen(store: map<Units, Stroke>, room: Units, round: nat, stroke: Stroke)
    requires StrokeKey(room, round, 10) in store
    ensures Stored(store, room, round, 2, 10) && !Scanned(store, room, round, 2, Indexed(10, store[StrokeKey(room, round, 10)]))
  {
    LexIsLeadingDigits(2, 10);
    assert Leading(10, 1) == Leading(1, 1) == 1;
  }

  /**
   Clearing a room takes all its strokes. It takes a stroke of another room exactly when one of the
   two ids continues the other after a '/'.
   */
  lemma ClearRoomReach(room: Units, other: Units, round: nat, index: nat)
    requires forall u :: u in other ==> u < LAST_UNIT
    ensures InRange(StrokeKey(other, round, index), room + [SLASH], room + [SLASH, LAST_UNIT]) <==>
            || other == room
            || (|other| > |room| && other[..|room| + 1] == room + [SLASH])
            || room == other + [SLASH] + Decimal(round)
  {
    var key := StrokeKey(other, round, index);
    var p := room + [SLASH];
    assert p + [] == p && p + [LAST_UNIT] == room + [SLASH, LAST_UNIT];
    KeyBeginsWithRoom(room, other, round, index);
    if InRange(key, p, room + [SLASH, LAST_UNIT]) {
      RangeHasPrefix(p, [], [LAST_UNIT], key);
    }
    if |key| >= |p| && key[..|p|] == p {
      var tail := key[|p|..];
      assert key == p + tail;
      LexSamePrefix(p, [], tail);
      LexSamePrefix(p, tail, [LAST_UNIT]);
      assert forall u :: u in key ==> u in other || u == SLASH || u in Decimal(round) || u in Decimal(index);
      assert tail != [] ==> tail[0] in key;
    }
  }

  lemma KeyBeginsWithRoom(room: Units, other: Units, round: nat, index: nat)
    ensures var key, p := StrokeKey(other, round, index), room + [SLASH];
            |key| >= |p| && key[..|p|] == p <==>
            || other == room
            || (|other| > |room| && other[..|room| + 1] == room + [SLASH])
            || room == other + [SLASH] + Decimal(round)
  {
    var key, p := StrokeKey(other, round, index), room + [SLASH];
    var second := |other| + 1 + |Decimal(round)|;
    assert key[..|other|] == other && key[|other|] == SLASH;
    assert key[..second] == other + [SLASH] + Decimal(round) && key[second] == SLASH;
    assert forall j :: |other| < j < second ==> key[j] == Decimal(round)[j - |other| - 1];
    assert forall j :: second < j < |key| ==> key[j] == Decimal(index)[j - second - 1];
    if |key| >= |p| && key[..|p|] == p {
      assert key[|room|] == p[|room|] == SLASH;
      assert key[..|room|] == p[..|room|] == room;
    }
    if other == room {
      assert key[..|p|] == key[..|other|] + [key[|other|]];
    } else if room == other + [SLASH] + Decimal(round) {
      assert key[..|p|] == key[..second] + [key[second]];
    }
  }
}

/**
 The unsigned orders of 8, 16 and 32 bit numbers are total. Each is shown from the two halves, so
 that no single step compares more than the solver can take bit by bit.
 */
module BitOrder {
  predicate Below8(x: bv8, y: bv8) { x < y }

  predicate Below16(x: bv16, y: bv16) { x < y }

  predicate Below32(x: bv32, y: bv32) { x < y }

  function HighByte(x: bv16): bv8 { ((x >> 8) & 0xFF) as bv8 }

  function LowByte(x: bv16): bv8 { (x & 0xFF) as bv8 }

  function HighWord(x: bv32): bv16 { ((x >> 16) & 0xFFFF) as bv16 }

  function LowWord(x: bv32): bv16 { (x & 0xFFFF) as bv16 }

  lemma Total8(x: bv8, y: bv8)
    ensures !Below8(x, x)
    ensures Below8(x, y) || x == y || Below8(y, x)
    ensures !(Below8(x, y) && Below8(y, x))
  {
  }

  lemma HighByteDecides(x: bv16, y: bv16)
    requires Below8(HighByte(x), HighByte(y))
    ensures Below16(x, y)
  {
  }

  lemma LowByteDecides(x: bv16, y: bv16)
    requires HighByte(x) == HighByte(y) && Below8(LowByte(x), LowByte(y))
    ensures Below16(x, y)
  {
  }

  lemma SameBytes(x: bv16, y: bv16)
    requires HighByte(x) == HighByte(y) && LowByte(x) == LowByte(y)
    ensures x == y
  {
  }

  lemma Strict16(x: bv16, y: bv16)
    ensures !Below16(x, x)
    ensures !(Below16(x, y) && Below16(y, x))
  {
  }

  lemma Total16(x: bv16, y: bv16)
    ensures !Below16(x, x)
    ensures Below16(x, y) || x == y || Below16(y, x)
    ensures !(Below16(x, y) && Below16(y, x))
  {
    hide Below8, Below16, HighByte, LowByte;
    Strict16(x, y);
    Total8(HighByte(x), HighByte(y));
    Total8(LowByte(x), LowByte(y));
    if Below8(HighByte(x), HighByte(y)) {
      HighByteDecides(x, y);
    } else if Below8(HighByte(y), HighByte(x)) {
      HighByteDecides(y, x);
    } else if Below8(LowByte(x), LowByte(y)) {
      LowByteDecides(x, y);
    } else if Below8(LowByte(y), LowByte(x)) {
      LowByteDecides(y, x);
    } else {
      SameBytes(x, y);
    }
  }

  lemma HighWordDecides(x: bv32, y: bv32)
    requires Below16(HighWord(x), HighWord(y))
    ensures Below32(x, y)
  {
  }

  lemma LowWordDecides(x: bv32, y: bv32)
    requires HighWord(x) == HighWord(y) && Below16(LowWord(x), LowWord(y))
    ensures Below32(x, y)
  {
  }

  lemma SameWords(x: bv32, y: bv32)
    requires HighWord(x) == HighWord(y) && LowWord(x) == LowWord(y)
    ensures x == y
  {
  }

  lemma Strict32(x: bv32, y: bv32)
    ensures !Below32(x, x)
    ensures !(Below32(x, y) && Below32(y, x))
  {
  }

  lemma Total32(x: bv32, y: bv32)
    ensures !Below32(x, x)
    ensures Below32(x, y) || x == y || Below32(y, x)
    ensures !(Below32(x, y) && Below32(y, x))
  {
    hide Below16, Below32, HighWord, LowWord;
    Strict32(x, y);
    Total16(HighWord(x), HighWord(y));
    Total16(LowWord(x), LowWord(y));
    if Below16(HighWord(x), HighWord(y)) {
      HighWordDecides(x, y);
    } else if Below16(HighWord(y), HighWord(x)) {
      HighWordDecides(y, x);
    } else if Below16(LowWord(x), LowWord(y)) {
      LowWordDecides(x, y);
    } else if Below16(LowWord(y), LowWord(x)) {
      LowWordDecides(y, x);
    } else {
      SameWords(x, y);
    }
  }

  lemma Transitive8(x: bv8, y: bv8, z: bv8)
    requires Below8(x, y) && Below8(y, z)
    ensures Below8(x, z)
  {
  }

  lemma Transitive16(x: bv16, y: bv16, z: bv16)
    requires Below16(x, y) && Below16(y, z)
    ensures Below16(x, z)
  {
  }
}

/** Words bit by bit: what the auxiliary functions and the rotation of MD5 do to each bit. */
module Md5Bits {
  import opened Md5Spec

  /** A word with one bit set, to ask for that bit. */
  predicate OneBit(k: bv32)
  {
    k != 0 && k & (k - 1) == 0
  }

  predicate Has(w: Word, k: bv32)
  {
    w.bits & k != 0
  }

  function And(x: Word, y: Word): (r: Word) { Word(x.bits & y.bits) }
  function Or(x: Word, y: Word): (r: Word) { Word(x.bits | y.bits) }
  function Not(x: Word): (r: Word) { Word(!x.bits) }
  function Xor(x: Word, y: Word): (r: Word) { And(Or(x, y), Not(And(x, y))) }

  lemma HasAnd(x: Word, y: Word, k: bv32)
    requires OneBit(k)
    ensures Has(And(x, y), k) <==> Has(x, k) && Has(y, k)
  {
  }

  lemma HasOr(x: Word, y: Word, k: bv32)
    requires OneBit(k)
    ensures Has(Or(x, y), k) <==> Has(x, k) || Has(y, k)
  {
  }

  lemma HasNot(x: Word, k: bv32)
    requires OneBit(k)
    ensures Has(Not(x), k) <==> !Has(x, k)
  {
  }

  lemma HasXor(x: Word, y: Word, k: bv32)
    requires OneBit(k)
    ensures Has(Xor(x, y), k) <==> Has(x, k) != Has(y, k)
  {
    hide Has, OneBit, And, Or, Not;
    HasOr(x, y, k);
    HasAnd(x, y, k);
    HasNot(And(x, y), k);
    HasAnd(Or(x, y), Not(And(x, y)), k);
  }

  lemma FIs(x: Word, y: Word, z: Word)
    ensures Aux(0, x, y, z) == Or(And(x, y), And(Not(x), z))
  {
  }

  lemma GIs(x: Word, y: Word, z: Word)
    ensures Aux(1, x, y, z) == Or(And(x, z), And(y, Not(z)))
  {
  }

  lemma HIs(x: Word, y: Word, z: Word)
    ensures Aux(2, x, y, z) == Xor(Xor(x, y), z)
  {
  }

  lemma IIs(x: Word, y: Word, z: Word)
    ensures Aux(3, x, y, z) == Xor(y, Or(x, Not(z)))
  {
  }

  /** The first function chooses y or z by x, */
  lemma AuxF(x: Word, y: Word, z: Word, k: bv32)
    requires OneBit(k)
    ensures Has(Aux(0, x, y, z), k) <==> if Has(x, k) then Has(y, k) else Has(z, k)
  {
    hide Has, OneBit, Aux, And, Or, Not, Xor;
    FIs(x, y, z);
    HasAnd(x, y, k);
    HasNot(x, k);
    HasAnd(Not(x), z, k);
    HasOr(And(x, y), And(Not(x), z), k);
  }

  /** the second x or y by z, */
  lemma AuxG(x: Word, y: Word, z: Word, k: bv32)
    requires OneBit(k)
    ensures Has(Aux(1, x, y, z), k) <==> if Has(z, k) then Has(x, k) else Has(y, k)
  {
    hide Has, OneBit, Aux, And, Or, Not, Xor;
    GIs(x, y, z);
    HasAnd(x, z, k);
    HasNot(z, k);
    HasAnd(y, Not(z), k);
    HasOr(And(x, z), And(y, Not(z)), k);
  }

  /** the third is the parity of the three, */
  lemma AuxH(x: Word, y: Word, z: Word, k: bv32)
    requires OneBit(k)
    ensures Has(Aux(2, x, y, z), k) <==> Has(x, k) != (Has(y, k) != Has(z, k))
  {
    hide Has, OneBit, Aux, And, Or, Not, Xor;
    HIs(x, y, z);
    HasXor(x, y, k);
    HasXor(Xor(x, y), z, k);
  }

  /** and the last differs from y where x is set or z is not. */
  lemma AuxI(x: Word, y: Word, z: Word, k: bv32)
    requires OneBit(k)
    ensures Has(Aux(3, x, y, z), k) <==> Has(y, k) != (Has(x, k) || !Has(z, k))
  {
    hide Has, OneBit, Aux, And, Or, Not, Xor;
    IIs(x, y, z);
    HasNot(z, k);
    HasOr(x, Not(z), k);
    HasXor(y, Or(x, Not(z)), k);
  }

  /** The bit above, or the lowest after the highest. */
  function Above(k: bv32): (r: bv32)
  {
    if k == 0x80000000 then 1 else k + k
  }

  /** The bit so many places up. */
  function Up(k: bv32, n: bv32): (r: bv32)
    decreases n
  {
    if n == 0 then k else Above(Up(k, n - 1))
  }

  lemma AboveIsOne(k: bv32)
    requires OneBit(k)
    ensures OneBit(Above(k))
  {
  }

  lemma RotateNone(x: Word)
    ensures RotateLeft(x, 0) == x
  {
  }

  /** A rotation by one place moves every bit to the place above it. */
  lemma RotateOne(x: Word, k: bv32)
    requires OneBit(k)
    ensures Has(RotateLeft(x, 1), Above(k)) <==> Has(x, k)
  {
  }

  /** A rotation by one place more is one by one place after it. */
  lemma RotateAgain(x: Word, n: bv32)
    requires n < 32
    ensures RotateLeft(x, n + 1) == RotateLeft(RotateLeft(x, n), 1)
  {
    hide RotateLeft;
    match n
    case 0 => Again0(x);
    case 1 => Again1(x);
    case 2 => Again2(x);
    case 3 => Again3(x);
    case 4 => Again4(x);
    case 5 => Again5(x);
    case 6 => Again6(x);
    case 7 => Again7(x);
    case 8 => Again8(x);
    case 9 => Again9(x);
    case 10 => Again10(x);
    case 11 => Again11(x);
    case 12 => Again12(x);
    case 13 => Again13(x);
    case 14 => Again14(x);
    case 15 => Again15(x);
    case 16 => Again16(x);
    case 17 => Again17(x);
    case 18 => Again18(x);
    case 19 => Again19(x);
    case 20 => Again20(x);
    case 21 => Again21(x);
    case 22 => Again22(x);
    case 23 => Again23(x);
    case 24 => Again24(x);
    case 25 => Again25(x);
    case 26 => Again26(x);
    case 27 => Again27(x);
    case 28 => Again28(x);
    case 29 => Again29(x);
    case 30 => Again30(x);
    case 31 => Again31(x);
    case _ =>
  }

  /** So a rotation by n places moves every bit n places up, going round at the top. */
  lemma {:induction false} RotateMeans(x: Word, n: bv32, k: bv32)
    requires n <= 32 && OneBit(k)
    ensures OneBit(Up(k, n)) && (Has(RotateLeft(x, n), Up(k, n)) <==> Has(x, k))
    decreases n
  {
    hide RotateLeft, Has, OneBit, Above;
    if n == 0 {
      RotateNone(x);
    } else {
      RotateMeans(x, n - 1, k);
      RotateAgain(x, n - 1);
      AboveIsOne(Up(k, n - 1));
      RotateOne(RotateLeft(x, n - 1), Up(k, n - 1));
    }
  }

  // ----- one place more, for each number of places

  lemma Again0(x: Word) ensures RotateLeft(x, 1) == RotateLeft(RotateLeft(x, 0), 1) {}
  lemma Again1(x: Word) ensures RotateLeft(x, 2) == RotateLeft(RotateLeft(x, 1), 1) {}
  lemma Again2(x: Word) ensures RotateLeft(x, 3) == RotateLeft(RotateLeft(x, 2), 1) {}
  lemma Again3(x: Word) ensures RotateLeft(x, 4) == RotateLeft(RotateLeft(x, 3), 1) {}
  lemma Again4(x: Word) ensures RotateLeft(x, 5) == RotateLeft(RotateLeft(x, 4), 1) {}
  lemma Again5(x: Word) ensures RotateLeft(x, 6) == RotateLeft(RotateLeft(x, 5), 1) {}
  lemma Again6(x: Word) ensures RotateLeft(x, 7) == RotateLeft(RotateLeft(x, 6), 1) {}
  lemma Again7(x: Word) ensures RotateLeft(x, 8) == RotateLeft(RotateLeft(x, 7), 1) {}
  lemma Again8(x: Word) ensures RotateLeft(x, 9) == RotateLeft(RotateLeft(x, 8), 1) {}
  lemma Again9(x: Word) ensures RotateLeft(x, 10) == RotateLeft(RotateLeft(x, 9), 1) {}
  lemma Again10(x: Word) ensures RotateLeft(x, 11) == RotateLeft(RotateLeft(x, 10), 1) {}
  lemma Again11(x: Word) ensures RotateLeft(x, 12) == RotateLeft(RotateLeft(x, 11), 1) {}
  lemma Again12(x: Word) ensures RotateLeft(x, 13) == RotateLeft(RotateLeft(x, 12), 1) {}
  lemma Again13(x: Word) ensures RotateLeft(x, 14) == RotateLeft(RotateLeft(x, 13), 1) {}
  lemma Again14(x: Word) ensures RotateLeft(x, 15) == RotateLeft(RotateLeft(x, 14), 1) {}
  lemma Again15(x: Word) ensures RotateLeft(x, 16) == RotateLeft(RotateLeft(x, 15), 1) {}
  lemma Again16(x: Word) ensures RotateLeft(x, 17) == RotateLeft(RotateLeft(x, 16), 1) {}
  lemma Again17(x: Word) ensures RotateLeft(x, 18) == RotateLeft(RotateLeft(x, 17), 1) {}
  lemma Again18(x: Word) ensures RotateLeft(x, 19) == RotateLeft(RotateLeft(x, 18), 1) {}
  lemma Again19(x: Word) ensures RotateLeft(x, 20) == RotateLeft(RotateLeft(x, 19), 1) {}
  lemma Again20(x: Word) ensures RotateLeft(x, 21) == RotateLeft(RotateLeft(x, 20), 1) {}
  lemma Again21(x: Word) ensures RotateLeft(x, 22) == RotateLeft(RotateLeft(x, 21), 1) {}
  lemma Again22(x: Word) ensures RotateLeft(x, 23) == RotateLeft(RotateLeft(x, 22), 1) {}
  lemma Again23(x: Word) ensures RotateLeft(x, 24) == RotateLeft(RotateLeft(x, 23), 1) {}
  lemma Again24(x: Word) ensures RotateLeft(x, 25) == RotateLeft(RotateLeft(x, 24), 1) {}
  lemma Again25(x: Word) ensures RotateLeft(x, 26) == RotateLeft(RotateLeft(x, 25), 1) {}
  lemma Again26(x: Word) ensures RotateLeft(x, 27) == RotateLeft(RotateLeft(x, 26), 1) {}
  lemma Again27(x: Word) ensures RotateLeft(x, 28) == RotateLeft(RotateLeft(x, 27), 1) {}
  lemma Again28(x: Word) ensures RotateLeft(x, 29) == RotateLeft(RotateLeft(x, 28), 1) {}
  lemma Again29(x: Word) ensures RotateLeft(x, 30) == RotateLeft(RotateLeft(x, 29), 1) {}
  lemma Again30(x: Word) ensures RotateLeft(x, 31) == RotateLeft(RotateLeft(x, 30), 1) {}
  lemma Again31(x: Word) ensures RotateLeft(x, 32) == RotateLeft(RotateLeft(x, 31), 1) {}
}

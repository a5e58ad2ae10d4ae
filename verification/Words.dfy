/**
 One 64-bit word of a bit set (linearizability/bitset.go): which bits it holds,
 and why the word-parallel population count of `popcnt` counts them.

 Facts about one word are proved on bit vectors.  Lemmas that only combine such
 facts hide the bit-vector definitions.
 */
module Words {

  // ----- shift amounts

  /** `k` as a shift amount. */
  function Amount(k: nat): bv7
    requires k <= 64
  {
    if k == 0 then 0 else Amount(k - 1) + 1
  }

  lemma AmountIncrement(x: bv7)
    requires x < 100
    ensures (x + 1) as nat == x as nat + 1
  {
  }

  lemma {:induction false} AmountValue(k: nat)
    requires k <= 64
    ensures Amount(k) as nat == k && Amount(k) <= 64
  {
    if k > 0 {
      AmountValue(k - 1);
      AmountIncrement(Amount(k - 1));
    }
  }

  lemma AmountSmall(k: nat)
    requires k < 64
    ensures Amount(k) < 64
  {
    AmountValue(k);
  }

  lemma AmountsEqual(j: nat, k: nat)
    requires j <= 64 && k <= 64
    ensures Amount(j) == Amount(k) <==> j == k
  {
    AmountValue(j);
    AmountValue(k);
  }

  // ----- bits

  predicate BitAt(w: bv64, k: bv7)
    requires k < 64
  {
    w & ((1 as bv64) << k) != 0
  }

  function WithBitAt(w: bv64, k: bv7): bv64
    requires k < 64
  {
    w | ((1 as bv64) << k)
  }

  function WithoutBitAt(w: bv64, k: bv7): bv64
    requires k < 64
  {
    w & !((1 as bv64) << k)
  }

  lemma SetRaw(w: bv64, k: bv7, j: bv7)
    requires k < 64 && j < 64
    ensures BitAt(w | ((1 as bv64) << k), j) <==> j == k || BitAt(w, j)
  {
  }

  lemma ClearRaw(w: bv64, k: bv7, j: bv7)
    requires k < 64 && j < 64
    ensures BitAt(w & !((1 as bv64) << k), j) <==> j != k && BitAt(w, j)
  {
  }

  lemma SetAt(w: bv64, k: bv7, j: bv7)
    requires k < 64 && j < 64
    ensures BitAt(WithBitAt(w, k), j) <==> j == k || BitAt(w, j)
  {
    hide BitAt;
    SetRaw(w, k, j);
  }

  lemma ClearAt(w: bv64, k: bv7, j: bv7)
    requires k < 64 && j < 64
    ensures BitAt(WithoutBitAt(w, k), j) <==> j != k && BitAt(w, j)
  {
    hide BitAt;
    ClearRaw(w, k, j);
  }

  lemma XorAt(v: bv64, w: bv64, k: bv7)
    requires k < 64
    ensures BitAt(v ^ w, k) <==> BitAt(v, k) != BitAt(w, k)
  {
  }

  predicate Bit(w: bv64, k: nat)
    requires k < 64
  {
    AmountSmall(k);
    BitAt(w, Amount(k))
  }

  function WithBit(w: bv64, k: nat): bv64
    requires k < 64
  {
    AmountSmall(k);
    WithBitAt(w, Amount(k))
  }

  function WithoutBit(w: bv64, k: nat): bv64
    requires k < 64
  {
    AmountSmall(k);
    WithoutBitAt(w, Amount(k))
  }

  /** Setting or clearing bit `k` changes that bit and no other. */
  lemma SetClearBit(w: bv64, k: nat, j: nat)
    requires k < 64 && j < 64
    ensures Bit(WithBit(w, k), j) <==> j == k || Bit(w, j)
    ensures Bit(WithoutBit(w, k), j) <==> j != k && Bit(w, j)
  {
    hide BitAt, WithBitAt, WithoutBitAt, Amount;
    AmountSmall(j);
    AmountSmall(k);
    AmountsEqual(j, k);
    SetAt(w, Amount(k), Amount(j));
    ClearAt(w, Amount(k), Amount(j));
  }

  // ----- a word is determined by its bits

  predicate LowZero(w: bv64, n: bv7)
    requires n <= 64
  {
    w & (((1 as bv64) << n) - 1) == 0
  }

  lemma LowZeroStart(w: bv64)
    ensures LowZero(w, 0)
  {
  }

  lemma LowZeroEnd(w: bv64)
    requires LowZero(w, 64)
    ensures w == 0
  {
  }

  lemma LowZeroStep(w: bv64, k: bv7)
    requires k < 64 && LowZero(w, k) && !BitAt(w, k)
    ensures LowZero(w, k + 1)
  {
  }

  lemma {:induction false} LowBitsZero(w: bv64, n: nat)
    requires n <= 64
    requires forall k: nat :: k < n ==> !Bit(w, k)
    ensures Amount(n) <= 64 && LowZero(w, Amount(n))
  {
    hide LowZero, BitAt;
    if n == 0 {
      LowZeroStart(w);
    } else {
      LowBitsZero(w, n - 1);
      AmountSmall(n - 1);
      assert !Bit(w, n - 1);
      LowZeroStep(w, Amount(n - 1));
    }
  }

  function Xor(v: bv64, w: bv64): (x: bv64)
    ensures forall k :: k < 64 ==> (BitAt(x, k) <==> BitAt(v, k) != BitAt(w, k))
  {
    assert forall k :: k < 64 ==> (BitAt(v ^ w, k) <==> BitAt(v, k) != BitAt(w, k)) by {
      forall k: bv7 | k < 64 ensures BitAt(v ^ w, k) <==> BitAt(v, k) != BitAt(w, k) { XorAt(v, w, k); }
    }
    v ^ w
  }

  lemma XorZero(v: bv64, w: bv64)
    requires Xor(v, w) == 0
    ensures v == w
  {
  }

  lemma FullAmount()
    ensures Amount(64) == 64
  {
    AmountValue(64);
  }

  /** Words with the same bits are the same word. */
  lemma WordExtensional(v: bv64, w: bv64)
    requires forall k: nat :: k < 64 ==> (Bit(v, k) <==> Bit(w, k))
    ensures v == w
  {
    hide BitAt, Xor, LowZero, Amount;
    var x := Xor(v, w);
    forall k: nat | k < 64 ensures !Bit(x, k) {
      assert Bit(v, k) <==> Bit(w, k);
      AmountSmall(k);
    }
    LowBitsZero(x, 64);
    FullAmount();
    LowZeroEnd(x);
    XorZero(v, w);
  }

  // ----- counting one bit at a time

  function CountBits(w: bv64, n: nat): nat
    requires n <= 64
  {
    if n == 0 then 0 else CountBits(w, n - 1) + if Bit(w, n - 1) then 1 else 0
  }

  /** The word without its low byte. */
  function NextByte(w: bv64): bv64 { w >> 8 }

  lemma NextByteBit(w: bv64, k: bv7)
    requires k < 56
    ensures BitAt(w, k + 8) <==> BitAt(NextByte(w), k)
  {
  }

  lemma AmountByte(k: nat)
    requires k < 56
    ensures Amount(k + 8) == Amount(k) + 8 && Amount(k) < 56
  {
    AmountValue(k);
    var a := Amount(k);
    assert Amount(k + 2) == Amount(k + 1) + 1 == a + 2;
    assert Amount(k + 4) == Amount(k + 3) + 1 == a + 4;
    assert Amount(k + 6) == Amount(k + 5) + 1 == a + 6;
    assert Amount(k + 8) == Amount(k + 7) + 1 == a + 8;
  }

  /** The count of a word is the count of its low byte plus the rest's. */
  lemma {:induction false} CountSplit(w: bv64, n: nat)
    requires n <= 56
    ensures CountBits(w, n + 8) == CountBits(w, 8) + CountBits(NextByte(w), n)
  {
    hide BitAt, NextByte, Amount;
    if n > 0 {
      CountSplit(w, n - 1);
      AmountByte(n - 1);
      NextByteBit(w, Amount(n - 1));
    }
  }

  function Val(c: bv64): nat { c as nat }
  function One(b: bool): bv64 { if b then 1 else 0 }
  function Plus(a: bv64, b: bv64): bv64 { a + b }

  lemma OneAdded(a: bv64, b: bool)
    requires a as nat < 64
    ensures (a + if b then 1 else 0) as nat == a as nat + if b then 1 else 0
  {
    assert a < 64;
  }

  lemma {:induction false} CountAtMost(w: bv64, n: nat)
    requires n <= 64
    ensures CountBits(w, n) <= n
  {
    hide BitAt, Amount;
    if n > 0 {
      CountAtMost(w, n - 1);
    }
  }

  lemma CountStep(w: bv64, n: nat, c: bv64)
    requires n < 64 && Val(c) == CountBits(w, n)
    ensures Val(Plus(c, One(Bit(w, n)))) == CountBits(w, n + 1)
  {
    hide BitAt, Amount;
    CountAtMost(w, n);
    OneAdded(c, Bit(w, n));
  }

  lemma SmallAmounts()
    ensures Amount(0) == 0 && Amount(1) == 1 && Amount(2) == 2 && Amount(3) == 3
    ensures Amount(4) == 4 && Amount(5) == 5 && Amount(6) == 6 && Amount(7) == 7
  {
    assert Amount(2) == Amount(1) + 1;
    assert Amount(4) == Amount(3) + 1;
    assert Amount(6) == Amount(5) + 1;
  }

  /** The lowest `n` bits, added up in the word's own arithmetic. */
  function LowCount(w: bv64, n: nat): bv64
    requires n <= 64
  {
    if n == 0 then 0 else Plus(LowCount(w, n - 1), One(Bit(w, n - 1)))
  }

  lemma {:induction false} LowCountCounts(w: bv64, n: nat)
    requires n <= 64
    ensures Val(LowCount(w, n)) == CountBits(w, n)
  {
    hide BitAt, Amount, Plus, One;
    if n > 0 {
      LowCountCounts(w, n - 1);
      CountStep(w, n - 1, LowCount(w, n - 1));
    }
  }

  lemma LowStep(w: bv64, n: nat, k: bv7)
    requires n < 64 && k < 64 && Amount(n) == k
    ensures LowCount(w, n + 1) == Plus(LowCount(w, n), One(BitAt(w, k)))
  {
  }

  lemma LowEight(w: bv64)
    ensures LowCount(w, 8) ==
      Plus(Plus(Plus(Plus(
        Plus(Plus(Plus(Plus(0, One(BitAt(w, 0))), One(BitAt(w, 1))), One(BitAt(w, 2))), One(BitAt(w, 3))),
        One(BitAt(w, 4))), One(BitAt(w, 5))), One(BitAt(w, 6))), One(BitAt(w, 7)))
  {
    hide BitAt, Amount, Plus, One, LowCount;
    SmallAmounts();
    LowNone(w);
    LowStep(w, 0, 0); LowStep(w, 1, 1); LowStep(w, 2, 2); LowStep(w, 3, 3);
    LowStep(w, 4, 4); LowStep(w, 5, 5); LowStep(w, 6, 6); LowStep(w, 7, 7);
  }

  lemma LowNone(w: bv64)
    ensures LowCount(w, 0) == 0
  {
  }

  // ----- the word-parallel count, stage by stage

  function Pairs(v: bv64): bv64 { (v & 0x5555555555555555) + ((v & 0xAAAAAAAAAAAAAAAA) >> 1) }
  function Nibbles(v: bv64): bv64 { (v & 0x3333333333333333) + ((v & 0xCCCCCCCCCCCCCCCC) >> 2) }
  function Bytes(v: bv64): bv64 { (v & 0x0F0F0F0F0F0F0F0F) + ((v & 0xF0F0F0F0F0F0F0F0) >> 4) }
  function Stages(v: bv64): bv64 { Bytes(Nibbles(Pairs(v))) }

  /** The population count of one word. */
  function PopCount(v: bv64): bv64 { TopByte(Times(Stages(v))) }

  function Times(v: bv64): bv64 { v * 0x0101010101010101 }
  function TopByte(v: bv64): bv64 { (v >> 56) & 0xFF }

  function Low(v: bv64): bv64 { v & 0xFF }

  /** Bit `k` as a number. */
  function Shifted(v: bv64, k: bv7): bv64
    requires k < 64
  {
    (v >> k) & 1
  }

  lemma ShiftedBit(v: bv64, k: bv7)
    requires k < 64
    ensures Shifted(v, k) == One(BitAt(v, k))
  {
  }

  lemma StagesSum(v: bv64)
    ensures Low(Stages(v)) == Plus(Plus(Plus(Plus(
      Plus(Plus(Plus(Plus(0, Shifted(v, 0)), Shifted(v, 1)), Shifted(v, 2)), Shifted(v, 3)),
      Shifted(v, 4)), Shifted(v, 5)), Shifted(v, 6)), Shifted(v, 7))
  {
  }

  lemma StagesRaw(v: bv64)
    ensures Low(Stages(v)) == Plus(Plus(Plus(Plus(
      Plus(Plus(Plus(Plus(0, One(BitAt(v, 0))), One(BitAt(v, 1))), One(BitAt(v, 2))), One(BitAt(v, 3))),
      One(BitAt(v, 4))), One(BitAt(v, 5))), One(BitAt(v, 6))), One(BitAt(v, 7)))
  {
    hide BitAt, One, Plus, Low, Stages, Shifted;
    StagesSum(v);
    ShiftedBit(v, 0);
    ShiftedBit(v, 1);
    ShiftedBit(v, 2);
    ShiftedBit(v, 3);
    ShiftedBit(v, 4);
    ShiftedBit(v, 5);
    ShiftedBit(v, 6);
    ShiftedBit(v, 7);
  }

  /** The three stages leave in each byte the number of bits of that byte. */
  lemma StagesLow(v: bv64)
    ensures Low(Stages(v)) == LowCount(v, 8)
  {
    hide BitAt, Amount, Plus, One, LowCount, Stages, Low;
    LowEight(v);
    StagesRaw(v);
  }

  lemma PairsShift(v: bv64)
    ensures NextByte(Pairs(v)) == Pairs(NextByte(v))
  {
  }

  lemma NibblesShift(v: bv64)
    ensures NextByte(Nibbles(v)) == Nibbles(NextByte(v))
  {
  }

  lemma BytesShift(v: bv64)
    ensures NextByte(Bytes(v)) == Bytes(NextByte(v))
  {
  }

  lemma StagesShift(v: bv64)
    ensures NextByte(Stages(v)) == Stages(NextByte(v))
  {
    hide Pairs, Nibbles, Bytes, NextByte;
    PairsShift(v);
    NibblesShift(Pairs(v));
    BytesShift(Nibbles(Pairs(v)));
  }

  function SumBytes(c: bv64, n: nat): nat {
    if n == 0 then 0 else Val(Low(c)) + SumBytes(NextByte(c), n - 1)
  }

  lemma {:induction false} StagesCount(w: bv64, n: nat)
    requires n <= 8
    ensures SumBytes(Stages(w), n) == CountBits(w, 8 * n)
    decreases n
  {
    hide Stages, NextByte, Low, LowCount, Val, BitAt, Amount;
    if n > 0 {
      StagesCount(NextByte(w), n - 1);
      StagesShift(w);
      StagesLow(w);
      LowCountCounts(w, 8);
      CountSplit(w, 8 * (n - 1));
    }
  }

  // ----- the multiplication adds the bytes

  /** Byte `k` of a word, counted from the low end. */
  function Byte(v: bv64, k: nat): bv64
    requires k < 8
  {
    if k == 0 then v & 0xFF else if k == 1 then (v >> 8) & 0xFF
    else if k == 2 then (v >> 16) & 0xFF else if k == 3 then (v >> 24) & 0xFF
    else if k == 4 then (v >> 32) & 0xFF else if k == 5 then (v >> 40) & 0xFF
    else if k == 6 then (v >> 48) & 0xFF else (v >> 56) & 0xFF
  }

  predicate BytesAtMost(v: bv64, m: bv64) {
    && Byte(v, 0) <= m && Byte(v, 1) <= m && Byte(v, 2) <= m && Byte(v, 3) <= m
    && Byte(v, 4) <= m && Byte(v, 5) <= m && Byte(v, 6) <= m && Byte(v, 7) <= m
  }

  // 0x0101010101010101 == 0x101 * 0x10001 * 0x100000001: each factor adds a
  // word to itself shifted by one, two and four bytes.
  function Add8(v: bv64): bv64 { v * 0x101 }
  function Add16(v: bv64): bv64 { v * 0x10001 }
  function Add32(v: bv64): bv64 { v * 0x100000001 }

  predicate IsTimes(v: bv64, t: bv64) { t == v * 0x0101010101010101 }
  predicate IsTimes16(v: bv64, t: bv64) { t == v * 0x1000100010001 }
  predicate IsTimes32(v: bv64, t: bv64) { t == v * 0x100000001 }

  lemma StagesSmall(v: bv64)
    ensures BytesAtMost(Stages(v), 8)
  {
  }

  lemma FirstFactor(v: bv64, t: bv64)
    requires IsTimes(v, t)
    ensures IsTimes16(v * 0x101, t)
  {
  }

  lemma SecondFactor(v: bv64, t: bv64)
    requires IsTimes16(v, t)
    ensures IsTimes32(v * 0x10001, t)
  {
  }

  lemma FirstAdd(v: bv64, t: bv64)
    requires IsTimes(v, t)
    ensures IsTimes16(Add8(v), t)
  {
    hide IsTimes, IsTimes16;
    FirstFactor(v, t);
  }

  lemma SecondAdd(v: bv64, t: bv64)
    requires IsTimes16(v, t)
    ensures IsTimes32(Add16(v), t)
  {
    hide IsTimes16, IsTimes32;
    SecondFactor(v, t);
  }

  lemma ThirdAdd(v: bv64, t: bv64)
    requires IsTimes32(v, t)
    ensures t == Add32(v)
  {
  }

  lemma TimesAsAdds(v: bv64, t: bv64)
    requires IsTimes(v, t)
    ensures t == Add32(Add16(Add8(v)))
  {
    hide IsTimes, IsTimes16, IsTimes32, Add8, Add16, Add32;
    FirstAdd(v, t);
    SecondAdd(Add8(v), t);
    ThirdAdd(Add16(Add8(v)), t);
  }

  lemma Add8Small(v: bv64)
    requires BytesAtMost(v, 8)
    ensures BytesAtMost(Add8(v), 16)
  {
  }

  lemma Add8High(v: bv64)
    requires BytesAtMost(v, 8)
    ensures Byte(Add8(v), 7) == Plus(Byte(v, 7), Byte(v, 6)) && Byte(Add8(v), 5) == Plus(Byte(v, 5), Byte(v, 4))
  {
  }
  lemma Add8Low(v: bv64)
    requires BytesAtMost(v, 8)
    ensures Byte(Add8(v), 3) == Plus(Byte(v, 3), Byte(v, 2)) && Byte(Add8(v), 1) == Plus(Byte(v, 1), Byte(v, 0))
  {
  }

  lemma Add16Small(p: bv64)
    requires BytesAtMost(p, 16)
    ensures BytesAtMost(Add16(p), 32)
  {
  }

  lemma Add16Bytes(p: bv64)
    requires BytesAtMost(p, 16)
    ensures Byte(Add16(p), 7) == Plus(Byte(p, 7), Byte(p, 5)) && Byte(Add16(p), 3) == Plus(Byte(p, 3), Byte(p, 1))
  {
  }

  lemma Add32Top(q: bv64)
    requires BytesAtMost(q, 32)
    ensures Byte(Add32(q), 7) == Plus(Byte(q, 7), Byte(q, 3))
  {
  }

  /** Multiplying by 0x0101010101010101 adds the eight bytes into the top one,
      without a carry. */
  lemma MultiplyAddsBytes(v: bv64, t: bv64)
    requires BytesAtMost(v, 8) && IsTimes(v, t)
    ensures Byte(t, 7) ==
      Plus(Plus(Plus(Byte(v, 7), Byte(v, 6)), Plus(Byte(v, 5), Byte(v, 4))),
           Plus(Plus(Byte(v, 3), Byte(v, 2)), Plus(Byte(v, 1), Byte(v, 0))))
  {
    hide IsTimes, Add8, Add16, Add32, Byte, BytesAtMost, Plus;
    TimesAsAdds(v, t);
    Add8Small(v);
    Add8High(v);
    Add8Low(v);
    Add16Small(Add8(v));
    Add16Bytes(Add8(v));
    Add32Top(Add16(Add8(v)));
  }

  lemma PlusVal(a: bv64, b: bv64)
    requires Val(a) <= 32 && Val(b) <= 32
    ensures Val(Plus(a, b)) == Val(a) + Val(b)
  {
    assert a <= 32 && b <= 32;
  }

  lemma ByteVal(v: bv64, k: nat)
    requires k < 8 && BytesAtMost(v, 8)
    ensures Val(Byte(v, k)) <= 8
  {
    assert Byte(v, k) <= 8;
  }

  lemma ByteNext(v: bv64, k: nat)
    requires k < 7
    ensures Byte(NextByte(v), k) == Byte(v, k + 1) && Byte(v, 0) == Low(v)
  {
  }

  lemma {:induction false} SumBytesFrom(v: bv64, n: nat)
    requires n < 8
    ensures SumBytes(v, n + 1) == Val(Byte(v, 0)) + SumBytes(NextByte(v), n)
  {
    hide NextByte, Val, Byte, Low;
    ByteNext(v, 0);
  }

  function PlainSum(v: bv64, n: nat): nat
    requires n <= 8
  {
    if n == 0 then 0 else PlainSum(v, n - 1) + Val(Byte(v, n - 1))
  }

  lemma {:induction false} PlainSumNext(v: bv64, n: nat)
    requires n < 8
    ensures PlainSum(v, n + 1) == Val(Byte(v, 0)) + PlainSum(NextByte(v), n)
  {
    hide NextByte, Val, Byte;
    if n > 0 {
      PlainSumNext(v, n - 1);
      ByteNext(v, n - 1);
    }
  }

  lemma {:induction false} SumsAgree(v: bv64, n: nat)
    requires n <= 8
    ensures SumBytes(v, n) == PlainSum(v, n)
    decreases n
  {
    hide NextByte, Val, Byte, Low;
    if n > 0 {
      SumBytesFrom(v, n - 1);
      PlainSumNext(v, n - 1);
      SumsAgree(NextByte(v), n - 1);
    }
  }

  lemma PairVal(v: bv64, k: nat)
    requires k < 7 && BytesAtMost(v, 8)
    ensures Val(Plus(Byte(v, k + 1), Byte(v, k))) == Val(Byte(v, k + 1)) + Val(Byte(v, k)) <= 16
  {
    hide Val, Plus, Byte, BytesAtMost;
    ByteVal(v, k);
    ByteVal(v, k + 1);
    PlusVal(Byte(v, k + 1), Byte(v, k));
  }

  lemma PlainSumEight(v: bv64)
    ensures PlainSum(v, 8) == Val(Byte(v, 0)) + Val(Byte(v, 1)) + Val(Byte(v, 2)) + Val(Byte(v, 3))
                              + Val(Byte(v, 4)) + Val(Byte(v, 5)) + Val(Byte(v, 6)) + Val(Byte(v, 7))
  {
    hide Val, Byte;
    assert PlainSum(v, 2) == PlainSum(v, 1) + Val(Byte(v, 1));
    assert PlainSum(v, 4) == PlainSum(v, 3) + Val(Byte(v, 3));
    assert PlainSum(v, 6) == PlainSum(v, 5) + Val(Byte(v, 5));
  }

  lemma FourVal(v: bv64, k: nat)
    requires k < 5 && BytesAtMost(v, 8)
    ensures Val(Plus(Plus(Byte(v, k + 3), Byte(v, k + 2)), Plus(Byte(v, k + 1), Byte(v, k))))
            == Val(Byte(v, k + 3)) + Val(Byte(v, k + 2)) + Val(Byte(v, k + 1)) + Val(Byte(v, k)) <= 32
  {
    hide Val, Plus, Byte, BytesAtMost;
    PairVal(v, k);
    PairVal(v, k + 2);
    PlusVal(Plus(Byte(v, k + 3), Byte(v, k + 2)), Plus(Byte(v, k + 1), Byte(v, k)));
  }

  lemma TopByteVal(v: bv64, t: bv64)
    requires BytesAtMost(v, 8) && IsTimes(v, t)
    ensures Val(Byte(t, 7)) == PlainSum(v, 8)
  {
    hide Val, Plus, Byte, BytesAtMost, IsTimes, PlainSum;
    MultiplyAddsBytes(v, t);
    FourVal(v, 4);
    FourVal(v, 0);
    PlusVal(Plus(Plus(Byte(v, 7), Byte(v, 6)), Plus(Byte(v, 5), Byte(v, 4))),
            Plus(Plus(Byte(v, 3), Byte(v, 2)), Plus(Byte(v, 1), Byte(v, 0))));
    PlainSumEight(v);
  }

  lemma TimesIsTimes(v: bv64)
    ensures IsTimes(v, Times(v))
  {
  }

  lemma TopByteIsSeven(v: bv64)
    ensures TopByte(v) == Byte(v, 7)
  {
  }

  /** The word-parallel count is the number of bits that are set. */
  lemma PopCountCounts(w: bv64)
    ensures Val(PopCount(w)) == CountBits(w, 64)
  {
    hide Stages, Times, TopByte, Byte, IsTimes, BytesAtMost, BitAt, Amount, Val;
    var c := Stages(w);
    TimesIsTimes(c);
    TopByteIsSeven(Times(c));
    StagesSmall(w);
    TopByteVal(c, Times(c));
    SumsAgree(c, 8);
    StagesCount(w, 8);
  }
}

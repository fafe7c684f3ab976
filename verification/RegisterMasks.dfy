/** A register mask and the list of registers it selects determine each other. */
module RegisterMasks {
  import opened Orders
  import opened Layout

  function Pow2(n: nat): (p: nat)
    ensures p > 0
  {
    if n == 0 then 1 else 2 * Pow2(n - 1)
  }

  // ---- The 64 shifts ----

  lemma Bits0()
    ensures Bit(0) == 0x1 && Bit(1) == 0x2
    ensures Bit(2) == 0x4 && Bit(3) == 0x8
    ensures Bit(4) == 0x10 && Bit(5) == 0x20
    ensures Bit(6) == 0x40 && Bit(7) == 0x80
    ensures Bit(8) == 0x100 && Bit(9) == 0x200
    ensures Bit(10) == 0x400 && Bit(11) == 0x800
    ensures Bit(12) == 0x1000 && Bit(13) == 0x2000
    ensures Bit(14) == 0x4000 && Bit(15) == 0x8000
  {
  }

  lemma Bits1()
    ensures Bit(16) == 0x1_0000 && Bit(17) == 0x2_0000
    ensures Bit(18) == 0x4_0000 && Bit(19) == 0x8_0000
    ensures Bit(20) == 0x10_0000 && Bit(21) == 0x20_0000
    ensures Bit(22) == 0x40_0000 && Bit(23) == 0x80_0000
    ensures Bit(24) == 0x100_0000 && Bit(25) == 0x200_0000
    ensures Bit(26) == 0x400_0000 && Bit(27) == 0x800_0000
    ensures Bit(28) == 0x1000_0000 && Bit(29) == 0x2000_0000
    ensures Bit(30) == 0x4000_0000 && Bit(31) == 0x8000_0000
  {
  }

  lemma Bits2()
    ensures Bit(32) == 0x1_0000_0000 && Bit(33) == 0x2_0000_0000
    ensures Bit(34) == 0x4_0000_0000 && Bit(35) == 0x8_0000_0000
    ensures Bit(36) == 0x10_0000_0000 && Bit(37) == 0x20_0000_0000
    ensures Bit(38) == 0x40_0000_0000 && Bit(39) == 0x80_0000_0000
    ensures Bit(40) == 0x100_0000_0000 && Bit(41) == 0x200_0000_0000
    ensures Bit(42) == 0x400_0000_0000 && Bit(43) == 0x800_0000_0000
    ensures Bit(44) == 0x1000_0000_0000 && Bit(45) == 0x2000_0000_0000
    ensures Bit(46) == 0x4000_0000_0000 && Bit(47) == 0x8000_0000_0000
  {
  }

  lemma Bits3()
    ensures Bit(48) == 0x1_0000_0000_0000 && Bit(49) == 0x2_0000_0000_0000
    ensures Bit(50) == 0x4_0000_0000_0000 && Bit(51) == 0x8_0000_0000_0000
    ensures Bit(52) == 0x10_0000_0000_0000 && Bit(53) == 0x20_0000_0000_0000
    ensures Bit(54) == 0x40_0000_0000_0000 && Bit(55) == 0x80_0000_0000_0000
    ensures Bit(56) == 0x100_0000_0000_0000 && Bit(57) == 0x200_0000_0000_0000
    ensures Bit(58) == 0x400_0000_0000_0000 && Bit(59) == 0x800_0000_0000_0000
    ensures Bit(60) == 0x1000_0000_0000_0000 && Bit(61) == 0x2000_0000_0000_0000
    ensures Bit(62) == 0x4000_0000_0000_0000 && Bit(63) == 0x8000_0000_0000_0000
  {
  }

  /** One more place is twice the value. */
  lemma BitStep(i: nat)
    requires 0 < i < 64
    ensures Bit(i) == Bit(i - 1) << 1 && Bit(i - 1) < 0x8000_0000_0000_0000
  {
    Bits0();
    Bits1();
    Bits2();
    Bits3();
    hide Bit;
    match i
    case 1 | 2 | 3 | 4 | 5 | 6 | 7 | 8 | 9 | 10 | 11 | 12 | 13 | 14 | 15 | 16 |
         17 | 18 | 19 | 20 | 21 | 22 | 23 | 24 | 25 | 26 | 27 | 28 | 29 | 30 | 31 | 32 |
         33 | 34 | 35 | 36 | 37 | 38 | 39 | 40 | 41 | 42 | 43 | 44 | 45 | 46 | 47 | 48 |
         49 | 50 | 51 | 52 | 53 | 54 | 55 | 56 | 57 | 58 | 59 | 60 | 61 | 62 | 63 =>
  }

  predicate Single(b: bv64) { b != 0 && b & (b - 1) == 0 }

  lemma SingleDoubled(b: bv64)
    requires Single(b) && b < 0x8000_0000_0000_0000
    ensures Single(b << 1)
  {
    hide Bit, RegBit, SetBits, MaskOf, Above, From, After, Both;
  }

  lemma {:induction false} SingleBit(i: nat)
    requires i < 64
    ensures Single(Bit(i))
  {
    if i == 0 {
      Bits0();
    } else {
      BitStep(i);
      SingleBit(i - 1);
      hide Bit;
      SingleDoubled(Bit(i - 1));
    }
  }

  lemma Doubled(b: bv64)
    requires b < 0x8000_0000_0000_0000
    ensures (b << 1) as nat == 2 * (b as nat)
  {
    hide *;
  }

  /** Bit i is the number 2^i. */
  lemma {:induction false} BitValue(i: nat)
    requires i < 64
    ensures Bit(i) as nat == Pow2(i)
  {
    if i == 0 {
      Bits0();
    } else {
      BitStep(i);
      BitValue(i - 1);
      hide Bit;
      Doubled(Bit(i - 1));
    }
  }

  // ---- Back from the registers to the mask ----

  function Both(a: bv64, b: bv64): bv64 { a | b }

  /** The mask that selects the given registers. */
  function MaskOf(ns: seq<nat>): bv64
    requires forall k :: 0 <= k < |ns| ==> ns[k] < 64
  {
    if ns == [] then 0 else Both(Bit(ns[0]), MaskOf(ns[1..]))
  }

  predicate Meets(a: bv64, b: bv64) { a & b != 0 }


  lemma RegBitMeets(mask: bv64, i: nat)
    requires i < 64
    ensures RegBit(mask, i) <==> Meets(mask, Bit(i))
  {
    hide Bit;
  }

  /** The bits of a mask that are not below the single bit b; none if b has been shifted out. */
  function From(mask: bv64, b: bv64): bv64 { mask & !(b - 1) }

  /** The bits of a mask from bit i upwards. */
  function Above(mask: bv64, i: nat): bv64
    requires i <= 64
  {
    if i == 64 then 0 else From(mask, Bit(i))
  }

  /** The bits of a mask above the single bit b. */
  function After(mask: bv64, b: bv64): bv64 { mask & !((b << 1) - 1) }

  lemma LowestBit(mask: bv64, b: bv64)
    requires b != 0 && b & (b - 1) == 0
    ensures mask & b != 0 ==> mask & !(b - 1) == b | (mask & !((b << 1) - 1))
    ensures mask & b == 0 ==> mask & !(b - 1) == mask & !((b << 1) - 1)
  {
    hide *;
  }

  lemma Peel(mask: bv64, b: bv64)
    requires Single(b)
    ensures From(mask, b) == if Meets(mask, b) then Both(b, After(mask, b)) else After(mask, b)
  {
    hide Bit, RegBit, SetBits, MaskOf, Above;
    LowestBit(mask, b);
  }

  lemma AboveLast(mask: bv64)
    ensures After(mask, Bit(63)) == 0
  {
    Bits3();
  }

  lemma FromTwice(mask: bv64, b: bv64)
    ensures From(mask, b << 1) == After(mask, b)
  {
  }

  lemma AboveNext(mask: bv64, i: nat)
    requires i < 63
    ensures From(mask, Bit(i + 1)) == After(mask, Bit(i))
  {
    hide Bit, From, After;
    BitStep(i + 1);
    FromTwice(mask, Bit(i));
  }

  lemma AboveStep(mask: bv64, i: nat)
    requires i < 64
    ensures Above(mask, i) == if RegBit(mask, i) then Both(Bit(i), Above(mask, i + 1)) else Above(mask, i + 1)
  {
    hide Bit, From, Single, Both, After, Meets, RegBit;
    if i < 63 { AboveNext(mask, i); } else { AboveLast(mask); }
    SingleBit(i);
    Peel(mask, Bit(i));
    RegBitMeets(mask, i);
  }

  lemma MaskOfCons(n: nat, ns: seq<nat>)
    requires n < 64 && forall k :: 0 <= k < |ns| ==> ns[k] < 64
    ensures MaskOf([n] + ns) == Both(Bit(n), MaskOf(ns))
    ensures MaskOf([]) == 0
  {
    assert ([n] + ns)[1..] == ns;
  }

  lemma {:induction false} MaskAbove(mask: bv64, i: nat)
    requires i <= 64
    ensures MaskOf(SetBits(mask, i)) == Above(mask, i)
    decreases 64 - i
  {
    hide Bit, RegBit, Above, MaskOf, Both;
    if i == 64 {
      AboveNothing(mask);
      MaskOfCons(0, []);
    } else {
      MaskAbove(mask, i + 1);
      AboveStep(mask, i);
      MaskOfCons(i, SetBits(mask, i + 1));
    }
  }

  lemma AboveNothing(mask: bv64)
    ensures Above(mask, 64) == 0
  {
  }

  lemma AboveAll(mask: bv64)
    ensures Above(mask, 0) == mask
  {
    Bits0();
  }

  /** A mask is the sum of the bits that SetBits lists. */
  lemma MaskRestored(mask: bv64)
    ensures MaskOf(SetBits(mask, 0)) == mask
  {
    MaskAbove(mask, 0);
    AboveAll(mask);
  }

  // ---- And from a mask to its registers ----

  lemma {:induction false} Pow2Grows(i: nat, j: nat)
    requires i < j
    ensures Pow2(i) < Pow2(j)
  {
    if i < j - 1 { Pow2Grows(i, j - 1); }
  }

  lemma SinglesDisjoint(a: bv64, b: bv64)
    requires Single(a) && Single(b)
    ensures a & b != 0 <==> a == b
  {
    hide Bit, RegBit, SetBits, MaskOf, Above, From, After, Both, Meets;
  }

  lemma OwnBit(n: nat, i: nat)
    requires n < 64 && i < 64
    ensures RegBit(Bit(n), i) <==> n == i
  {
    SingleBit(n);
    SingleBit(i);
    BitValue(n);
    BitValue(i);
    if n < i { Pow2Grows(n, i); }
    if i < n { Pow2Grows(i, n); }
    hide Bit, Single;
    SinglesDisjoint(Bit(n), Bit(i));
  }

  lemma OneMask(a: bv64, b: bv64, c: bv64)
    ensures a & c != 0 ==> (a | b) & c != 0
    ensures a | b == b | a
  {
    hide *;
  }

  lemma NeitherMask(a: bv64, b: bv64, c: bv64)
    requires a & c == 0 && b & c == 0
    ensures (a | b) & c == 0
  {
    hide *;
  }

  lemma EitherMask(a: bv64, b: bv64, c: bv64)
    ensures (a | b) & c != 0 <==> a & c != 0 || b & c != 0
  {
    hide *;
    if a & c != 0 {
      OneMask(a, b, c);
    } else if b & c != 0 {
      OneMask(b, a, c);
    } else {
      NeitherMask(a, b, c);
    }
  }

  lemma MeetsBoth(a: bv64, b: bv64, c: bv64)
    ensures Meets(Both(a, b), c) <==> (a | b) & c != 0
    ensures Meets(a, c) <==> a & c != 0
    ensures Meets(b, c) <==> b & c != 0
  {
    hide Bit, RegBit, SetBits, MaskOf, Above, From, After, Single;
  }

  lemma MeetsEither(a: bv64, b: bv64, c: bv64)
    ensures Meets(Both(a, b), c) <==> Meets(a, c) || Meets(b, c)
  {
    hide Meets, Both;
    EitherMask(a, b, c);
    MeetsBoth(a, b, c);
  }

  lemma EitherBit(a: bv64, b: bv64, i: nat)
    requires i < 64
    ensures RegBit(Both(a, b), i) <==> RegBit(a, i) || RegBit(b, i)
  {
    hide Bit, RegBit, Meets, Both;
    RegBitMeets(a, i);
    RegBitMeets(b, i);
    RegBitMeets(Both(a, b), i);
    MeetsEither(a, b, Bit(i));
  }

  lemma NoRegisters(i: nat)
    requires i < 64
    ensures !RegBit(0, i)
  {
    hide Bit;
  }

  lemma {:induction false} MaskOfMember(ns: seq<nat>, i: nat)
    requires i < 64 && forall k :: 0 <= k < |ns| ==> ns[k] < 64
    ensures RegBit(MaskOf(ns), i) <==> i in ns
  {
    hide Bit, RegBit, MaskOf, Both;
    if ns == [] {
      MaskOfCons(0, []);
      NoRegisters(i);
    } else {
      MaskOfMember(ns[1..], i);
      OwnBit(ns[0], i);
      EitherBit(Bit(ns[0]), MaskOf(ns[1..]), i);
      MaskOfCons(ns[0], ns[1..]);
      assert ns == [ns[0]] + ns[1..];
    }
  }

  lemma {:induction false} SetBitsMember(mask: bv64, i: nat, n: nat)
    requires i <= 64
    ensures n in SetBits(mask, i) <==> i <= n < 64 && RegBit(mask, n)
    decreases 64 - i
  {
    hide RegBit;
    if i < 64 { SetBitsMember(mask, i + 1, n); }
  }

  lemma {:induction false} SetBitsAscend(mask: bv64, i: nat, j: nat, k: nat)
    requires i <= 64 && j < k < |SetBits(mask, i)|
    ensures SetBits(mask, i)[j] < SetBits(mask, i)[k]
    decreases 64 - i
  {
    hide RegBit;
    if RegBit(mask, i) {
      if j > 0 { SetBitsAscend(mask, i + 1, j - 1, k - 1); }
    } else {
      SetBitsAscend(mask, i + 1, j, k);
    }
  }

  /** The registers ns, in ascending order, are those of the mask. */
  predicate Selects(mask: bv64, ns: seq<nat>) {
    Ascending(ns, n => n) && (forall k :: 0 <= k < |ns| ==> ns[k] < 64) && MaskOf(ns) == mask
  }

  /** SetBits lists the one ascending sequence of registers whose bits make up the mask. */
  lemma SetBitsExact(mask: bv64, ns: seq<nat>)
    ensures ns == SetBits(mask, 0) <==> Selects(mask, ns)
  {
    hide RegBit, MaskOf, Bit;
    var bits, rank := SetBits(mask, 0), (n: nat) => n;
    MaskRestored(mask);
    forall j, k | 0 <= j < k < |bits| ensures bits[j] < bits[k] { SetBitsAscend(mask, 0, j, k); }
    if Selects(mask, ns) {
      forall n: nat ensures n in ns <==> n in bits {
        SetBitsMember(mask, 0, n);
        if n < 64 { MaskOfMember(ns, n); }
      }
      assert Members(ns) == Members(bits);
      AscendingUnique(ns, bits, rank);
    }
  }
}

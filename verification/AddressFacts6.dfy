/** The policy over the production registries for IPv6, with the blocks as intervals of addresses. */
module AddressFacts6 {
  import opened Results
  import opened AddressPolicy
  import Reversal

  /** Unspecified, loopback, local, documentation, transition and multicast blocks. */
  predicate Special6(v: Word128) {
    || v < 0x2
    || 0x64_ff9b_0001_0000_0000_0000_0000_0000 <= v < 0x64_ff9b_0002_0000_0000_0000_0000_0000
    || 0x100_0000_0000_0000_0000_0000_0000_0000 <= v < 0x100_0000_0000_0002_0000_0000_0000_0000
    || 0x2001_0000_0000_0000_0000_0000_0000_0000 <= v < 0x2001_0200_0000_0000_0000_0000_0000_0000
    || 0x2001_0db8_0000_0000_0000_0000_0000_0000 <= v < 0x2001_0db9_0000_0000_0000_0000_0000_0000
    || 0x2002_0000_0000_0000_0000_0000_0000_0000 <= v < 0x2003_0000_0000_0000_0000_0000_0000_0000
    || 0x3fff_0000_0000_0000_0000_0000_0000_0000 <= v < 0x3fff_1000_0000_0000_0000_0000_0000_0000
    || 0x5f00_0000_0000_0000_0000_0000_0000_0000 <= v < 0x5f01_0000_0000_0000_0000_0000_0000_0000
    || 0xfc00_0000_0000_0000_0000_0000_0000_0000 <= v < 0xfe00_0000_0000_0000_0000_0000_0000_0000
    || 0xfe80_0000_0000_0000_0000_0000_0000_0000 <= v < 0xfec0_0000_0000_0000_0000_0000_0000_0000
    || 0xff00_0000_0000_0000_0000_0000_0000_0000 <= v
  }

  /** The blocks inside special ones that the registry calls reachable. */
  predicate Reachable6(v: Word128) {
    || 0x2001_0001_0000_0000_0000_0000_0000_0001 <= v < 0x2001_0001_0000_0000_0000_0000_0000_0004
    || 0x2001_0003_0000_0000_0000_0000_0000_0000 <= v < 0x2001_0004_0000_0000_0000_0000_0000_0000
    || 0x2001_0004_0112_0000_0000_0000_0000_0000 <= v < 0x2001_0004_0113_0000_0000_0000_0000_0000
    || 0x2001_0020_0000_0000_0000_0000_0000_0000 <= v < 0x2001_0040_0000_0000_0000_0000_0000_0000
    || 0x2620_004f_8000_0000_0000_0000_0000_0000 <= v < 0x2620_004f_8001_0000_0000_0000_0000_0000
  }

  /** Global unicast space that has been allocated. */
  predicate Allocated6(v: Word128) {
    || 0x2001_0000_0000_0000_0000_0000_0000_0000 <= v < 0x2001_1000_0000_0000_0000_0000_0000_0000
    || 0x2001_1200_0000_0000_0000_0000_0000_0000 <= v < 0x2001_4e00_0000_0000_0000_0000_0000_0000
    || 0x2001_5000_0000_0000_0000_0000_0000_0000 <= v < 0x2001_6000_0000_0000_0000_0000_0000_0000
    || 0x2001_8000_0000_0000_0000_0000_0000_0000 <= v < 0x2001_c000_0000_0000_0000_0000_0000_0000
    || 0x2002_0000_0000_0000_0000_0000_0000_0000 <= v < 0x2003_4000_0000_0000_0000_0000_0000_0000
    || 0x2400_0000_0000_0000_0000_0000_0000_0000 <= v < 0x2420_0000_0000_0000_0000_0000_0000_0000
    || 0x2600_0000_0000_0000_0000_0000_0000_0000 <= v < 0x2610_0200_0000_0000_0000_0000_0000_0000
    || 0x2620_0000_0000_0000_0000_0000_0000_0000 <= v < 0x2620_0200_0000_0000_0000_0000_0000_0000
    || 0x2630_0000_0000_0000_0000_0000_0000_0000 <= v < 0x2640_0000_0000_0000_0000_0000_0000_0000
    || 0x2800_0000_0000_0000_0000_0000_0000_0000 <= v < 0x2810_0000_0000_0000_0000_0000_0000_0000
    || 0x2a00_0000_0000_0000_0000_0000_0000_0000 <= v < 0x2a20_0000_0000_0000_0000_0000_0000_0000
    || 0x2c00_0000_0000_0000_0000_0000_0000_0000 <= v < 0x2c10_0000_0000_0000_0000_0000_0000_0000
  }

  /** IPv4-mapped and NAT64 forms, which get the verdict of the IPv4 address inside. */
  predicate Embedded(v: Word128) {
    v / 0x1_0000_0000 == 0xffff || v / 0x1_0000_0000 == 0x64_ff9b_0000_0000_0000_0000
  }

  // -- powers and intervals --

  lemma {:induction false} PowAdd(a: nat, b: nat)
    ensures Pow2(a + b) == Pow2(a) * Pow2(b)
  {
    if b > 0 {
      PowAdd(a, b - 1);
      assert Pow2(a + b) == 2 * Pow2(a + b - 1);
      assert Pow2(a) * (2 * Pow2(b - 1)) == 2 * (Pow2(a) * Pow2(b - 1));
    }
  }

  lemma SmallPowers()
    ensures Pow2(1) == 2 && Pow2(2) == 4 && Pow2(3) == 8 && Pow2(4) == 16 && Pow2(5) == 32 && Pow2(8) == 0x100 && Pow2(16) == 0x1_0000
    ensures Pow2(32) == 0x1_0000_0000 && Pow2(64) == 0x1_0000_0000_0000_0000
  {
    assert Pow2(12) == 0x1000;
    PowAdd(16, 16);
    PowAdd(32, 32);
  }

  lemma MiddlePowers()
    ensures Pow2(80) == 0x1_0000_0000_0000_0000_0000
    ensures Pow2(96) == 0x1_0000_0000_0000_0000_0000_0000
    ensures Pow2(100) == 0x10_0000_0000_0000_0000_0000_0000
    ensures Pow2(104) == 0x100_0000_0000_0000_0000_0000_0000
    ensures Pow2(105) == 0x200_0000_0000_0000_0000_0000_0000
    ensures Pow2(106) == 0x400_0000_0000_0000_0000_0000_0000
  {
    SmallPowers();
    PowAdd(64, 16);
    PowAdd(64, 32);
    PowAdd(96, 4);
    PowAdd(100, 4);
    PowAdd(104, 1);
    PowAdd(104, 2);
  }

  lemma LargePowers()
    ensures Pow2(108) == 0x1000_0000_0000_0000_0000_0000_0000
    ensures Pow2(109) == 0x2000_0000_0000_0000_0000_0000_0000
    ensures Pow2(110) == 0x4000_0000_0000_0000_0000_0000_0000
    ensures Pow2(112) == 0x1_0000_0000_0000_0000_0000_0000_0000
    ensures Pow2(116) == 0x10_0000_0000_0000_0000_0000_0000_0000
    ensures Pow2(118) == 0x40_0000_0000_0000_0000_0000_0000_0000
    ensures Pow2(120) == 0x100_0000_0000_0000_0000_0000_0000_0000
    ensures Pow2(121) == 0x200_0000_0000_0000_0000_0000_0000_0000
  {
    SmallPowers();
    MiddlePowers();
    PowAdd(104, 4);
    PowAdd(108, 1);
    PowAdd(108, 2);
    PowAdd(108, 4);
    PowAdd(112, 4);
    PowAdd(116, 2);
    PowAdd(116, 4);
    PowAdd(120, 1);
  }

  /** How many addresses a registry prefix of this length holds. */
  function Size(bits: nat): (p: nat)
    ensures p > 0
  {
    if bits == 7 then 0x200_0000_0000_0000_0000_0000_0000_0000
    else if bits == 8 then 0x100_0000_0000_0000_0000_0000_0000_0000
    else if bits == 10 then 0x40_0000_0000_0000_0000_0000_0000_0000
    else if bits == 12 then 0x10_0000_0000_0000_0000_0000_0000_0000
    else if bits == 16 then 0x1_0000_0000_0000_0000_0000_0000_0000
    else if bits == 18 then 0x4000_0000_0000_0000_0000_0000_0000
    else if bits == 19 then 0x2000_0000_0000_0000_0000_0000_0000
    else if bits == 20 then 0x1000_0000_0000_0000_0000_0000_0000
    else if bits == 22 then 0x400_0000_0000_0000_0000_0000_0000
    else if bits == 23 then 0x200_0000_0000_0000_0000_0000_0000
    else if bits == 28 then 0x10_0000_0000_0000_0000_0000_0000
    else if bits == 32 then 0x1_0000_0000_0000_0000_0000_0000
    else if bits == 48 then 0x1_0000_0000_0000_0000_0000
    else if bits == 64 then 0x1_0000_0000_0000_0000
    else if bits == 128 then 0x1
    else 1
  }

  predicate Registered(bits: nat) {
    bits in {7, 8, 10, 12, 16, 18, 19, 20, 22, 23, 28, 32, 48, 64, 128}
  }

  lemma SizeIsPower(bits: nat)
    requires Registered(bits)
    ensures Size(bits) == Pow2(128 - bits)
  {
    if bits <= 20 {
      LargePowers();
    } else if bits <= 48 {
      MiddlePowers();
    } else {
      SmallPowers();
    }
  }

  lemma InBlock(e: Entry, v: Word128)
    requires e.family == V6 && Registered(e.bits)
    ensures Contains(e, Six(v, "")) <==> e.top * Size(e.bits) <= v < (e.top + 1) * Size(e.bits)
  {
    SizeIsPower(e.bits);
    var p := Pow2(128 - e.bits);
    Reversal.FloorBounds(v, p);
    if e.top * p <= v < (e.top + 1) * p {
      Reversal.FloorUnique(v, p, e.top);
    }
  }

  // -- the special registry, row by row --

  /** A reachable row covers reachable addresses only; any other row special ones, and none reachable unless it is as wide as 2001::/23. */
  predicate Fits6(e: Entry, v: Word128) {
    Contains(e, Six(v, "")) ==>
      if e.reachable then Reachable6(v) && e.bits >= 28 else Special6(v) && (Reachable6(v) ==> e.bits <= 23)
  }

  lemma SpecialRows0(i: nat, v: Word128)
    requires i < 4
    ensures Fits6(SPECIAL6[i], v)
  {
    InBlock(SPECIAL6[i], v);
  }

  lemma SpecialRows4(i: nat, v: Word128)
    requires 4 <= i < 8
    ensures Fits6(SPECIAL6[i], v)
  {
    InBlock(SPECIAL6[i], v);
  }

  lemma SpecialRows8(i: nat, v: Word128)
    requires 8 <= i < 12
    ensures Fits6(SPECIAL6[i], v)
  {
    InBlock(SPECIAL6[i], v);
  }

  lemma SpecialRows12(i: nat, v: Word128)
    requires 12 <= i < 16
    ensures Fits6(SPECIAL6[i], v)
  {
    InBlock(SPECIAL6[i], v);
  }

  lemma SpecialRows16(i: nat, v: Word128)
    requires 16 <= i < 20
    ensures Fits6(SPECIAL6[i], v)
  {
    InBlock(SPECIAL6[i], v);
  }

  lemma SpecialRows20(i: nat, v: Word128)
    requires 20 <= i < 24
    ensures Fits6(SPECIAL6[i], v)
  {
    InBlock(SPECIAL6[i], v);
  }

  lemma EveryRowFits(i: nat, v: Word128)
    requires i < |SPECIAL6|
    ensures Fits6(SPECIAL6[i], v)
  {
    if i < 4 {
      SpecialRows0(i, v);
    } else if i < 8 {
      SpecialRows4(i, v);
    } else if i < 12 {
      SpecialRows8(i, v);
    } else if i < 16 {
      SpecialRows12(i, v);
    } else if i < 20 {
      SpecialRows16(i, v);
    } else {
      SpecialRows20(i, v);
    }
  }

  /** A row that lists the special address. */
  function SpecialRowOf(v: Word128): (i: nat)
    requires Special6(v)
    ensures i < |SPECIAL6|
  {
    if v < 0x1 then 19
    else if v < 0x2 then 20
    else if v < 0x64_ff9b_0002_0000_0000_0000_0000_0000 then 13
    else if v < 0x100_0000_0000_0001_0000_0000_0000_0000 then 17
    else if v < 0x100_0000_0000_0002_0000_0000_0000_0000 then 18
    else if v < 0x2001_0200_0000_0000_0000_0000_0000_0000 then 6
    else if v < 0x2001_0db9_0000_0000_0000_0000_0000_0000 then 12
    else if v < 0x2003_0000_0000_0000_0000_0000_0000_0000 then 3
    else if v < 0x3fff_1000_0000_0000_0000_0000_0000_0000 then 5
    else if v < 0x5f01_0000_0000_0000_0000_0000_0000_0000 then 4
    else if v < 0xfe00_0000_0000_0000_0000_0000_0000_0000 then 0
    else if v < 0xfec0_0000_0000_0000_0000_0000_0000_0000 then 2
    else 1
  }

  /** A row that lists the reachable address. */
  function ReachableRowOf(v: Word128): (i: nat)
    requires Reachable6(v)
    ensures i < |SPECIAL6|
  {
    if v < 0x2001_0001_0000_0000_0000_0000_0000_0002 then 21
    else if v < 0x2001_0001_0000_0000_0000_0000_0000_0003 then 22
    else if v < 0x2001_0001_0000_0000_0000_0000_0000_0004 then 23
    else if v < 0x2001_0004_0000_0000_0000_0000_0000_0000 then 11
    else if v < 0x2001_0004_0113_0000_0000_0000_0000_0000 then 15
    else if v < 0x2001_0030_0000_0000_0000_0000_0000_0000 then 8
    else if v < 0x2001_0040_0000_0000_0000_0000_0000_0000 then 9
    else 16
  }

  lemma SpecialIsListed0(v: Word128)
    requires Special6(v) && 0 <= v < 0x2001_0200_0000_0000_0000_0000_0000_0000
    ensures Contains(SPECIAL6[SpecialRowOf(v)], Six(v, ""))
  {
    InBlock(SPECIAL6[SpecialRowOf(v)], v);
  }

  lemma SpecialIsListed1(v: Word128)
    requires Special6(v) && 0x2001_0db8_0000_0000_0000_0000_0000_0000 <= v < 0xfec0_0000_0000_0000_0000_0000_0000_0000
    ensures Contains(SPECIAL6[SpecialRowOf(v)], Six(v, ""))
  {
    InBlock(SPECIAL6[SpecialRowOf(v)], v);
  }

  lemma SpecialIsListed2(v: Word128)
    requires Special6(v) && 0xff00_0000_0000_0000_0000_0000_0000_0000 <= v < 0x1_0000_0000_0000_0000_0000_0000_0000_0000
    ensures Contains(SPECIAL6[SpecialRowOf(v)], Six(v, ""))
  {
    InBlock(SPECIAL6[SpecialRowOf(v)], v);
  }

  lemma SpecialIsListed(v: Word128)
    requires Special6(v)
    ensures Contains(SPECIAL6[SpecialRowOf(v)], Six(v, ""))
  {
    if v < 0x2001_0200_0000_0000_0000_0000_0000_0000 {
      SpecialIsListed0(v);
    } else if v < 0xfec0_0000_0000_0000_0000_0000_0000_0000 {
      SpecialIsListed1(v);
    } else {
      SpecialIsListed2(v);
    }
  }

  lemma ReachableIsListed0(v: Word128)
    requires Reachable6(v) && 0x2001_0001_0000_0000_0000_0000_0000_0001 <= v < 0x2001_0030_0000_0000_0000_0000_0000_0000
    ensures Contains(SPECIAL6[ReachableRowOf(v)], Six(v, "")) && SPECIAL6[ReachableRowOf(v)].reachable
  {
    InBlock(SPECIAL6[ReachableRowOf(v)], v);
  }

  lemma ReachableIsListed1(v: Word128)
    requires Reachable6(v) && 0x2001_0030_0000_0000_0000_0000_0000_0000 <= v < 0x2620_004f_8001_0000_0000_0000_0000_0000
    ensures Contains(SPECIAL6[ReachableRowOf(v)], Six(v, "")) && SPECIAL6[ReachableRowOf(v)].reachable
  {
    InBlock(SPECIAL6[ReachableRowOf(v)], v);
  }

  lemma ReachableIsListed(v: Word128)
    requires Reachable6(v)
    ensures Contains(SPECIAL6[ReachableRowOf(v)], Six(v, "")) && SPECIAL6[ReachableRowOf(v)].reachable
  {
    if v < 0x2001_0030_0000_0000_0000_0000_0000_0000 {
      ReachableIsListed0(v);
    } else {
      ReachableIsListed1(v);
    }
  }

  // -- the allocated prefixes --

  /** A prefix that covers the allocated address. */
  function AllocatedRowOf(v: Word128): (i: nat)
    requires Allocated6(v)
    ensures i < |ALLOCATED6|
  {
    if v < 0x2001_0200_0000_0000_0000_0000_0000_0000 then 18
    else if v < 0x2001_0400_0000_0000_0000_0000_0000_0000 then 19
    else if v < 0x2001_0600_0000_0000_0000_0000_0000_0000 then 20
    else if v < 0x2001_0800_0000_0000_0000_0000_0000_0000 then 21
    else if v < 0x2001_0c00_0000_0000_0000_0000_0000_0000 then 15
    else if v < 0x2001_0e00_0000_0000_0000_0000_0000_0000 then 22
    else if v < 0x2001_1000_0000_0000_0000_0000_0000_0000 then 23
    else if v < 0x2001_1400_0000_0000_0000_0000_0000_0000 then 24
    else if v < 0x2001_1800_0000_0000_0000_0000_0000_0000 then 16
    else if v < 0x2001_1a00_0000_0000_0000_0000_0000_0000 then 25
    else if v < 0x2001_1c00_0000_0000_0000_0000_0000_0000 then 26
    else if v < 0x2001_2000_0000_0000_0000_0000_0000_0000 then 17
    else if v < 0x2001_4000_0000_0000_0000_0000_0000_0000 then 10
    else if v < 0x2001_4200_0000_0000_0000_0000_0000_0000 then 27
    else if v < 0x2001_4400_0000_0000_0000_0000_0000_0000 then 28
    else if v < 0x2001_4600_0000_0000_0000_0000_0000_0000 then 29
    else if v < 0x2001_4800_0000_0000_0000_0000_0000_0000 then 30
    else if v < 0x2001_4a00_0000_0000_0000_0000_0000_0000 then 31
    else if v < 0x2001_4c00_0000_0000_0000_0000_0000_0000 then 32
    else if v < 0x2001_4e00_0000_0000_0000_0000_0000_0000 then 33
    else if v < 0x2001_6000_0000_0000_0000_0000_0000_0000 then 12
    else if v < 0x2001_a000_0000_0000_0000_0000_0000_0000 then 11
    else if v < 0x2001_b000_0000_0000_0000_0000_0000_0000 then 13
    else if v < 0x2001_c000_0000_0000_0000_0000_0000_0000 then 14
    else if v < 0x2003_0000_0000_0000_0000_0000_0000_0000 then 8
    else if v < 0x2003_4000_0000_0000_0000_0000_0000_0000 then 9
    else if v < 0x2410_0000_0000_0000_0000_0000_0000_0000 then 0
    else if v < 0x2420_0000_0000_0000_0000_0000_0000_0000 then 1
    else if v < 0x2610_0000_0000_0000_0000_0000_0000_0000 then 2
    else if v < 0x2610_0200_0000_0000_0000_0000_0000_0000 then 34
    else if v < 0x2620_0200_0000_0000_0000_0000_0000_0000 then 35
    else if v < 0x2640_0000_0000_0000_0000_0000_0000_0000 then 3
    else if v < 0x2810_0000_0000_0000_0000_0000_0000_0000 then 4
    else if v < 0x2a10_0000_0000_0000_0000_0000_0000_0000 then 5
    else if v < 0x2a20_0000_0000_0000_0000_0000_0000_0000 then 6
    else 7
  }

  lemma AllocatedIsListed0(v: Word128)
    requires Allocated6(v) && 0x2001_0000_0000_0000_0000_0000_0000_0000 <= v < 0x2001_0e00_0000_0000_0000_0000_0000_0000
    ensures Contains(ALLOCATED6[AllocatedRowOf(v)], Six(v, ""))
  {
    InBlock(ALLOCATED6[AllocatedRowOf(v)], v);
  }

  lemma AllocatedIsListed1(v: Word128)
    requires Allocated6(v) && 0x2001_0e00_0000_0000_0000_0000_0000_0000 <= v < 0x2001_2000_0000_0000_0000_0000_0000_0000
    ensures Contains(ALLOCATED6[AllocatedRowOf(v)], Six(v, ""))
  {
    InBlock(ALLOCATED6[AllocatedRowOf(v)], v);
  }

  lemma AllocatedIsListed2(v: Word128)
    requires Allocated6(v) && 0x2001_2000_0000_0000_0000_0000_0000_0000 <= v < 0x2001_4a00_0000_0000_0000_0000_0000_0000
    ensures Contains(ALLOCATED6[AllocatedRowOf(v)], Six(v, ""))
  {
    InBlock(ALLOCATED6[AllocatedRowOf(v)], v);
  }

  lemma AllocatedIsListed3(v: Word128)
    requires Allocated6(v) && 0x2001_4a00_0000_0000_0000_0000_0000_0000 <= v < 0x2001_c000_0000_0000_0000_0000_0000_0000
    ensures Contains(ALLOCATED6[AllocatedRowOf(v)], Six(v, ""))
  {
    InBlock(ALLOCATED6[AllocatedRowOf(v)], v);
  }

  lemma AllocatedIsListed4(v: Word128)
    requires Allocated6(v) && 0x2002_0000_0000_0000_0000_0000_0000_0000 <= v < 0x2610_0200_0000_0000_0000_0000_0000_0000
    ensures Contains(ALLOCATED6[AllocatedRowOf(v)], Six(v, ""))
  {
    InBlock(ALLOCATED6[AllocatedRowOf(v)], v);
  }

  lemma AllocatedIsListed5(v: Word128)
    requires Allocated6(v) && 0x2620_0000_0000_0000_0000_0000_0000_0000 <= v < 0x2c10_0000_0000_0000_0000_0000_0000_0000
    ensures Contains(ALLOCATED6[AllocatedRowOf(v)], Six(v, ""))
  {
    InBlock(ALLOCATED6[AllocatedRowOf(v)], v);
  }

  lemma AllocatedIsListed(v: Word128)
    requires Allocated6(v)
    ensures Contains(ALLOCATED6[AllocatedRowOf(v)], Six(v, ""))
  {
    if v < 0x2001_0e00_0000_0000_0000_0000_0000_0000 {
      AllocatedIsListed0(v);
    } else if v < 0x2001_2000_0000_0000_0000_0000_0000_0000 {
      AllocatedIsListed1(v);
    } else if v < 0x2001_4a00_0000_0000_0000_0000_0000_0000 {
      AllocatedIsListed2(v);
    } else if v < 0x2001_c000_0000_0000_0000_0000_0000_0000 {
      AllocatedIsListed3(v);
    } else if v < 0x2610_0200_0000_0000_0000_0000_0000_0000 {
      AllocatedIsListed4(v);
    } else {
      AllocatedIsListed5(v);
    }
  }

  lemma AllocatedRows0(i: nat, v: Word128)
    requires i < 6 && Contains(ALLOCATED6[i], Six(v, ""))
    ensures Allocated6(v)
  {
    InBlock(ALLOCATED6[i], v);
  }

  lemma AllocatedRows6(i: nat, v: Word128)
    requires 6 <= i < 12 && Contains(ALLOCATED6[i], Six(v, ""))
    ensures Allocated6(v)
  {
    InBlock(ALLOCATED6[i], v);
  }

  lemma AllocatedRows12(i: nat, v: Word128)
    requires 12 <= i < 18 && Contains(ALLOCATED6[i], Six(v, ""))
    ensures Allocated6(v)
  {
    InBlock(ALLOCATED6[i], v);
  }

  lemma AllocatedRows18(i: nat, v: Word128)
    requires 18 <= i < 24 && Contains(ALLOCATED6[i], Six(v, ""))
    ensures Allocated6(v)
  {
    InBlock(ALLOCATED6[i], v);
  }

  lemma AllocatedRows24(i: nat, v: Word128)
    requires 24 <= i < 30 && Contains(ALLOCATED6[i], Six(v, ""))
    ensures Allocated6(v)
  {
    InBlock(ALLOCATED6[i], v);
  }

  lemma AllocatedRows30(i: nat, v: Word128)
    requires 30 <= i < 36 && Contains(ALLOCATED6[i], Six(v, ""))
    ensures Allocated6(v)
  {
    InBlock(ALLOCATED6[i], v);
  }

  lemma AllocatedRow(i: nat, v: Word128)
    requires i < |ALLOCATED6| && Contains(ALLOCATED6[i], Six(v, ""))
    ensures Allocated6(v)
  {
    if i < 6 {
      AllocatedRows0(i, v);
    } else if i < 12 {
      AllocatedRows6(i, v);
    } else if i < 18 {
      AllocatedRows12(i, v);
    } else if i < 24 {
      AllocatedRows18(i, v);
    } else if i < 30 {
      AllocatedRows24(i, v);
    } else {
      AllocatedRows30(i, v);
    }
  }

  lemma AllocatedExactly(v: Word128)
    ensures Listed(PRODUCTION.unicast, Six(v, "")) <==> Allocated6(v)
  {
    if Allocated6(v) {
      AllocatedIsListed(v);
      assert ALLOCATED6[AllocatedRowOf(v)] in PRODUCTION.unicast;
    }
    if Listed(PRODUCTION.unicast, Six(v, "")) {
      var e :| e in ALLOCATED6 && Contains(e, Six(v, ""));
      var i :| 0 <= i < |ALLOCATED6| && ALLOCATED6[i] == e;
      AllocatedRow(i, v);
    }
  }

  // -- any policy with such rows --

  ghost predicate RowsFit(table: seq<Entry>, v: Word128) {
    forall e :: e in table ==> Fits6(e, v)
  }

  ghost predicate HasRow(table: seq<Entry>, v: Word128, reachable: bool) {
    exists e :: e in table && Contains(e, Six(v, "")) && (reachable ==> e.reachable)
  }

  lemma RowsDecide(p: Policy, v: Word128)
    requires !Embedded(v) && RowsFit(p.special, v)
    requires (Special6(v) ==> HasRow(p.special, v, false)) && (Reachable6(v) ==> HasRow(p.special, v, true))
    ensures Allows(p, Six(v, "")) <==> Reachable6(v) || (!Special6(v) && Listed(p.unicast, Six(v, "")))
  {
    var a := Six(v, "");
    assert Unmap(a) == a && !InNat64(a);
    BestIsLongest(p.special, a);
    match Best(p.special, a)
    case None =>
    case Some(e) =>
      assert Fits6(e, v);
      if Reachable6(v) {
        var f :| f in p.special && Contains(f, a) && f.reachable;
        assert Fits6(f, v);
      }
  }

  lemma ProductionFits(v: Word128)
    ensures RowsFit(PRODUCTION.special, v)
  {
    forall e | e in PRODUCTION.special ensures Fits6(e, v) {
      ProductionRow(e, v);
    }
  }

  lemma ProductionRow(e: Entry, v: Word128)
    requires e in PRODUCTION.special
    ensures Fits6(e, v)
  {
    if e in SPECIAL6 {
      var i :| 0 <= i < |SPECIAL6| && SPECIAL6[i] == e;
      EveryRowFits(i, v);
    } else {
      var i :| 0 <= i < |SPECIAL4| && SPECIAL4[i] == e;
      AllFour(i);
    }
  }

  lemma AllFour(i: nat)
    requires i < |SPECIAL4|
    ensures SPECIAL4[i].family == V4
  {
  }

  lemma InProduction(i: nat)
    requires i < |SPECIAL6|
    ensures SPECIAL6[i] in PRODUCTION.special
  {
    assert (SPECIAL4 + SPECIAL6)[|SPECIAL4| + i] == SPECIAL6[i];
  }

  lemma ProductionLists(v: Word128)
    ensures Special6(v) ==> HasRow(PRODUCTION.special, v, false)
    ensures Reachable6(v) ==> HasRow(PRODUCTION.special, v, true)
  {
    if Special6(v) {
      SpecialIsListed(v);
      InProduction(SpecialRowOf(v));
    }
    if Reachable6(v) {
      ReachableIsListed(v);
      InProduction(ReachableRowOf(v));
    }
  }

  /** Exactly which IPv6 addresses may be dialled, embedded IPv4 forms aside. */
  lemma Public6Exactly(v: Word128)
    requires !Embedded(v)
    ensures Allows(PRODUCTION, Six(v, "")) <==> Reachable6(v) || (!Special6(v) && Allocated6(v))
  {
    ProductionFits(v);
    ProductionLists(v);
    AllocatedExactly(v);
    RowsDecide(PRODUCTION, v);
  }

  /** So no IPv6 address outside global unicast space, 2000::/3, is ever dialled. */
  lemma OnlyGlobalUnicast(v: Word128)
    requires !Embedded(v) && Allows(PRODUCTION, Six(v, ""))
    ensures 0x2000_0000_0000_0000_0000_0000_0000_0000 <= v < 0x4000_0000_0000_0000_0000_0000_0000_0000
  {
    Public6Exactly(v);
  }
}

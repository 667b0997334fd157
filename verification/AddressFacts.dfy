/** The policy over the production registries, address by address: which IPv4 and IPv6 blocks are reachable. */
module AddressFacts {
  import opened Results
  import opened AddressPolicy
  import Reversal

  // -- blocks as intervals --

  lemma Powers()
    ensures Pow2(0) == 1 && Pow2(3) == 8 && Pow2(8) == 0x100 && Pow2(16) == 0x1_0000 && Pow2(17) == 0x2_0000
    ensures Pow2(20) == 0x10_0000 && Pow2(22) == 0x40_0000 && Pow2(24) == 0x100_0000 && Pow2(28) == 0x1000_0000
  {
    assert Pow2(4) == 16 && Pow2(12) == 0x1000 && Pow2(18) == 0x4_0000 && Pow2(26) == 0x400_0000;
  }

  /** A prefix contains an address exactly when it lies in the block's interval. */
  lemma InBlock(e: Entry, v: Word32)
    requires e.family == V4 && e.bits <= 32
    ensures Contains(e, Four(v)) <==> e.top * Pow2(32 - e.bits) <= v < (e.top + 1) * Pow2(32 - e.bits)
  {
    var p := Pow2(32 - e.bits);
    Reversal.FloorBounds(v, p);
    if e.top * p <= v < (e.top + 1) * p {
      Reversal.FloorUnique(v, p, e.top);
    }
  }

  // -- IPv4 --

  /** Private use, loopback, link-local, shared, documentation, benchmarking, multicast and reserved blocks. */
  predicate Special4(v: Word32) {
    || v < 0x0100_0000                       // 0.0.0.0/8
    || 0x0a00_0000 <= v < 0x0b00_0000        // 10.0.0.0/8
    || 0x6440_0000 <= v < 0x6480_0000        // 100.64.0.0/10
    || 0x7f00_0000 <= v < 0x8000_0000        // 127.0.0.0/8
    || 0xa9fe_0000 <= v < 0xa9ff_0000        // 169.254.0.0/16
    || 0xac10_0000 <= v < 0xac20_0000        // 172.16.0.0/12
    || 0xc000_0000 <= v < 0xc000_0100        // 192.0.0.0/24
    || 0xc000_0200 <= v < 0xc000_0300        // 192.0.2.0/24
    || 0xc058_6300 <= v < 0xc058_6400        // 192.88.99.0/24
    || 0xc0a8_0000 <= v < 0xc0a9_0000        // 192.168.0.0/16
    || 0xc612_0000 <= v < 0xc614_0000        // 198.18.0.0/15
    || 0xc633_6400 <= v < 0xc633_6500        // 198.51.100.0/24
    || 0xcb00_7100 <= v < 0xcb00_7200        // 203.0.113.0/24
    || 0xe000_0000 <= v                      // 224.0.0.0/4 and 240.0.0.0/4
  }

  /** 192.0.0.9 and 192.0.0.10, the two anycast addresses inside a special block. */
  predicate Anycast4(v: Word32) {
    v == 0xc000_0009 || v == 0xc000_000a
  }

  /** The row covers special addresses only, or is one of those the registry calls reachable. */
  predicate Fits4(e: Entry, v: Word32) {
    Contains(e, Four(v)) ==> if e.reachable then !Special4(v) || Anycast4(v) else Special4(v)
  }

  lemma WideRows(i: nat, v: Word32)
    requires i < 6
    ensures Fits4(SPECIAL4[i], v)
  {
    Powers();
    InBlock(SPECIAL4[i], v);
  }

  lemma MiddleRows(i: nat, v: Word32)
    requires 6 <= i < 11
    ensures Fits4(SPECIAL4[i], v)
  {
    Powers();
    InBlock(SPECIAL4[i], v);
  }

  lemma NarrowRows(i: nat, v: Word32)
    requires 11 <= i < 18
    ensures Fits4(SPECIAL4[i], v)
  {
    Powers();
    InBlock(SPECIAL4[i], v);
  }

  lemma HostRows(i: nat, v: Word32)
    requires 18 <= i < 26
    ensures Fits4(SPECIAL4[i], v)
  {
    Powers();
    InBlock(SPECIAL4[i], v);
  }

  lemma EveryRowFits(e: Entry, v: Word32)
    requires e in SPECIAL4
    ensures Fits4(e, v)
  {
    var i :| 0 <= i < |SPECIAL4| && SPECIAL4[i] == e;
    if i < 6 {
      WideRows(i, v);
    } else if i < 11 {
      MiddleRows(i, v);
    } else if i < 18 {
      NarrowRows(i, v);
    } else {
      HostRows(i, v);
    }
  }

  lemma OfFamily4(e: Entry, v: Word32)
    requires e in PRODUCTION.special && Contains(e, Four(v))
    ensures e in SPECIAL4
  {
    if e in SPECIAL6 {
      var i :| 0 <= i < |SPECIAL6| && SPECIAL6[i] == e;
      AllSix(i);
    }
  }

  lemma AllSix(i: nat)
    requires i < |SPECIAL6|
    ensures SPECIAL6[i].family == V6
  {
  }

  /** Every special address has a row. */
  lemma SpecialHasRow(v: Word32)
    requires Special4(v)
    ensures Contains(SPECIAL4[RowOf(v)], Four(v))
  {
    Powers();
    if RowOf(v) < 8 {
      WideHasRow(v);
    } else {
      InBlock(SPECIAL4[RowOf(v)], v);
    }
  }

  lemma WideHasRow(v: Word32)
    requires Special4(v) && RowOf(v) < 8
    ensures Contains(SPECIAL4[RowOf(v)], Four(v))
  {
    Powers();
    InBlock(SPECIAL4[RowOf(v)], v);
  }

  /** Which row of the registry lists a special address. */
  function RowOf(v: Word32): (i: nat)
    requires Special4(v)
    ensures i < |SPECIAL4|
  {
    if v < 0x0100_0000 then 2
    else if v < 0x0b00_0000 then 3
    else if v < 0x6480_0000 then 5
    else if v < 0x8000_0000 then 4
    else if v < 0xa9ff_0000 then 8
    else if v < 0xac20_0000 then 6
    else if v < 0xc000_0100 then 10
    else if v < 0xc000_0300 then 11
    else if v < 0xc058_6400 then 14
    else if v < 0xc0a9_0000 then 9
    else if v < 0xc614_0000 then 7
    else if v < 0xc633_6500 then 16
    else if v < 0xcb00_7200 then 17
    else if v < 0xf000_0000 then 0 else 1
  }

  /** An anycast address has a row of its own, and no other row is as long. */
  lemma AnycastRow(v: Word32, i: nat)
    requires Anycast4(v)
    ensures Contains(SPECIAL4[20], Four(0xc000_0009)) && Contains(SPECIAL4[21], Four(0xc000_000a))
    ensures i < |SPECIAL4| && Contains(SPECIAL4[i], Four(v)) && SPECIAL4[i].bits >= 32 ==> SPECIAL4[i].reachable
  {
    Powers();
    InBlock(SPECIAL4[20], 0xc000_0009);
    InBlock(SPECIAL4[21], 0xc000_000a);
    if i < |SPECIAL4| && SPECIAL4[i].bits >= 32 {
      InBlock(SPECIAL4[i], v);
    }
  }

  // -- any policy with such rows --

  /** Every row that contains the address fits it. */
  ghost predicate RowsFit(table: seq<Entry>, v: Word32) {
    forall e :: e in table && Contains(e, Four(v)) ==> if e.reachable then !Special4(v) || Anycast4(v) else Special4(v)
  }

  ghost predicate HasRow(table: seq<Entry>, v: Word32) {
    exists e :: e in table && Contains(e, Four(v))
  }

  /** The address has a row of full length, and all such rows are reachable. */
  ghost predicate HostRow(table: seq<Entry>, v: Word32) {
    && (exists e :: e in table && Contains(e, Four(v)) && e.bits == 32)
    && (forall e :: e in table && Contains(e, Four(v)) && e.bits >= 32 ==> e.reachable)
  }

  lemma RowsDecide(p: Policy, v: Word32)
    requires RowsFit(p.special, v) && (Special4(v) ==> HasRow(p.special, v)) && (Anycast4(v) ==> HostRow(p.special, v))
    ensures Allows(p, Four(v)) <==> !Special4(v) || Anycast4(v)
  {
    BestIsLongest(p.special, Four(v));
  }

  // -- the production registry --

  lemma ProductionRow(e: Entry, v: Word32)
    requires e in PRODUCTION.special && Contains(e, Four(v))
    ensures if e.reachable then !Special4(v) || Anycast4(v) else Special4(v)
    ensures Anycast4(v) && e.bits >= 32 ==> e.reachable
  {
    OfFamily4(e, v);
    EveryRowFits(e, v);
    var i :| 0 <= i < |SPECIAL4| && SPECIAL4[i] == e;
    if Anycast4(v) {
      AnycastRow(v, i);
    }
  }

  lemma InProduction(i: nat)
    requires i < |SPECIAL4|
    ensures SPECIAL4[i] in PRODUCTION.special
  {
    assert (SPECIAL4 + SPECIAL6)[i] == SPECIAL4[i];
  }

  lemma ProductionFits(v: Word32)
    ensures RowsFit(PRODUCTION.special, v)
    ensures Anycast4(v) ==> forall e :: e in PRODUCTION.special && Contains(e, Four(v)) && e.bits >= 32 ==> e.reachable
  {
    forall e | e in PRODUCTION.special && Contains(e, Four(v))
      ensures if e.reachable then !Special4(v) || Anycast4(v) else Special4(v)
      ensures Anycast4(v) && e.bits >= 32 ==> e.reachable
    {
      ProductionRow(e, v);
    }
  }

  lemma ProductionLists(v: Word32)
    ensures Special4(v) ==> HasRow(PRODUCTION.special, v)
    ensures Anycast4(v) ==> exists e :: e in PRODUCTION.special && Contains(e, Four(v)) && e.bits == 32
  {
    if Special4(v) {
      SpecialHasRow(v);
      InProduction(RowOf(v));
    }
    if Anycast4(v) {
      AnycastRow(v, 0);
      InProduction(20);
      InProduction(21);
    }
  }

  /** Exactly the IPv4 addresses outside the special blocks, and the anycast pair, may be dialled. */
  lemma Public4Exactly(v: Word32)
    ensures Allows(PRODUCTION, Four(v)) <==> !Special4(v) || Anycast4(v)
  {
    ProductionFits(v);
    ProductionLists(v);
    RowsDecide(PRODUCTION, v);
  }
}

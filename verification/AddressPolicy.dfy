/**
 The outbound address policy: which addresses a delivery may connect to. The most specific
 matching registry prefix decides; embedded IPv4 forms are judged as the IPv4 address itself.
 */
module AddressPolicy {
  import opened Results

  type Word32 = n: nat | n < 0x1_0000_0000
  type Word128 = n: nat | n < 0x1_0000_0000_0000_0000_0000_0000_0000_0000

  datatype Family = V4 | V6

  /** A literal address; a zone can only accompany an IPv6 one. */
  datatype Addr = Four(v4: Word32) | Six(v6: Word128, zone: string)

  /** A registry prefix by its leading bits, and whether the registry calls it globally reachable. */
  datatype Entry = Entry(family: Family, top: nat, bits: nat, reachable: bool)

  function Width(f: Family): nat {
    match f case V4 => 32 case V6 => 128
  }

  function Pow2(n: nat): (p: nat)
    ensures p > 0
  {
    if n == 0 then 1 else 2 * Pow2(n - 1)
  }

  function Value(a: Addr): nat {
    match a case Four(v) => v case Six(v, _) => v
  }

  function FamilyOf(a: Addr): Family {
    if a.Four? then V4 else V6
  }

  /** Prefixes strip zones, so no prefix contains a zoned address. */
  predicate Contains(e: Entry, a: Addr) {
    && e.family == FamilyOf(a) && (a.Six? ==> a.zone == "")
    && e.bits <= Width(e.family)
    && Value(a) / Pow2(Width(e.family) - e.bits) == e.top
  }

  // -- registries, snapshot of October 2025 --

  /** The IPv4 special-purpose registry, shortest prefixes first; the flag is its globally-reachable column. */
  const SPECIAL4: seq<Entry> := [
    Entry(V4, 0xe, 4, false), // 224.0.0.0/4
    Entry(V4, 0xf, 4, false), // 240.0.0.0/4
    Entry(V4, 0x0, 8, false), // 0.0.0.0/8
    Entry(V4, 0xa, 8, false), // 10.0.0.0/8
    Entry(V4, 0x7f, 8, false), // 127.0.0.0/8
    Entry(V4, 0x191, 10, false), // 100.64.0.0/10
    Entry(V4, 0xac1, 12, false), // 172.16.0.0/12
    Entry(V4, 0x6309, 15, false), // 198.18.0.0/15
    Entry(V4, 0xa9fe, 16, false), // 169.254.0.0/16
    Entry(V4, 0xc0a8, 16, false), // 192.168.0.0/16
    Entry(V4, 0xc00000, 24, false), // 192.0.0.0/24
    Entry(V4, 0xc00002, 24, false), // 192.0.2.0/24
    Entry(V4, 0xc01fc4, 24, true), // 192.31.196.0/24
    Entry(V4, 0xc034c1, 24, true), // 192.52.193.0/24
    Entry(V4, 0xc05863, 24, false), // 192.88.99.0/24
    Entry(V4, 0xc0af30, 24, true), // 192.175.48.0/24
    Entry(V4, 0xc63364, 24, false), // 198.51.100.0/24
    Entry(V4, 0xcb0071, 24, false), // 203.0.113.0/24
    Entry(V4, 0x18000000, 29, false), // 192.0.0.0/29
    Entry(V4, 0xc0000008, 32, false), // 192.0.0.8/32
    Entry(V4, 0xc0000009, 32, true), // 192.0.0.9/32
    Entry(V4, 0xc000000a, 32, true), // 192.0.0.10/32
    Entry(V4, 0xc00000aa, 32, false), // 192.0.0.170/32
    Entry(V4, 0xc00000ab, 32, false), // 192.0.0.171/32
    Entry(V4, 0xc0586302, 32, false), // 192.88.99.2/32
    Entry(V4, 0xffffffff, 32, false)] // 255.255.255.255/32

  /** The IPv6 special-purpose registry, shortest prefixes first. */
  const SPECIAL6: seq<Entry> := [
    Entry(V6, 0x7e, 7, false), // fc00::/7
    Entry(V6, 0xff, 8, false), // ff00::/8
    Entry(V6, 0x3fa, 10, false), // fe80::/10
    Entry(V6, 0x2002, 16, false), // 2002::/16
    Entry(V6, 0x5f00, 16, false), // 5f00::/16
    Entry(V6, 0x3fff0, 20, false), // 3fff::/20
    Entry(V6, 0x100080, 23, false), // 2001::/23
    Entry(V6, 0x2001001, 28, false), // 2001:10::/28
    Entry(V6, 0x2001002, 28, true), // 2001:20::/28
    Entry(V6, 0x2001003, 28, true), // 2001:30::/28
    Entry(V6, 0x20010000, 32, false), // 2001::/32
    Entry(V6, 0x20010003, 32, true), // 2001:3::/32
    Entry(V6, 0x20010db8, 32, false), // 2001:db8::/32
    Entry(V6, 0x64ff9b0001, 48, false), // 64:ff9b:1::/48
    Entry(V6, 0x200100020000, 48, false), // 2001:2::/48
    Entry(V6, 0x200100040112, 48, true), // 2001:4:112::/48
    Entry(V6, 0x2620004f8000, 48, true), // 2620:4f:8000::/48
    Entry(V6, 0x100000000000000, 64, false), // 100::/64
    Entry(V6, 0x100000000000001, 64, false), // 100:0:0:1::/64
    Entry(V6, 0x0, 128, false), // ::/128
    Entry(V6, 0x1, 128, false), // ::1/128
    Entry(V6, 0x20010001000000000000000000000001, 128, true), // 2001:1::1/128
    Entry(V6, 0x20010001000000000000000000000002, 128, true), // 2001:1::2/128
    Entry(V6, 0x20010001000000000000000000000003, 128, true)] // 2001:1::3/128

  /** The IPv6 global unicast prefixes listed as allocated, shortest first. */
  const ALLOCATED6: seq<Entry> := [
    Entry(V6, 0x240, 12, true), // 2400::/12
    Entry(V6, 0x241, 12, true), // 2410::/12
    Entry(V6, 0x260, 12, true), // 2600::/12
    Entry(V6, 0x263, 12, true), // 2630::/12
    Entry(V6, 0x280, 12, true), // 2800::/12
    Entry(V6, 0x2a0, 12, true), // 2a00::/12
    Entry(V6, 0x2a1, 12, true), // 2a10::/12
    Entry(V6, 0x2c0, 12, true), // 2c00::/12
    Entry(V6, 0x2002, 16, true), // 2002::/16
    Entry(V6, 0x800c, 18, true), // 2003::/18
    Entry(V6, 0x10009, 19, true), // 2001:2000::/19
    Entry(V6, 0x1000c, 19, true), // 2001:8000::/19
    Entry(V6, 0x20015, 20, true), // 2001:5000::/20
    Entry(V6, 0x2001a, 20, true), // 2001:a000::/20
    Entry(V6, 0x2001b, 20, true), // 2001:b000::/20
    Entry(V6, 0x80042, 22, true), // 2001:800::/22
    Entry(V6, 0x80045, 22, true), // 2001:1400::/22
    Entry(V6, 0x80047, 22, true), // 2001:1c00::/22
    Entry(V6, 0x100080, 23, true), // 2001::/23
    Entry(V6, 0x100081, 23, true), // 2001:200::/23
    Entry(V6, 0x100082, 23, true), // 2001:400::/23
    Entry(V6, 0x100083, 23, true), // 2001:600::/23
    Entry(V6, 0x100086, 23, true), // 2001:c00::/23
    Entry(V6, 0x100087, 23, true), // 2001:e00::/23
    Entry(V6, 0x100089, 23, true), // 2001:1200::/23
    Entry(V6, 0x10008c, 23, true), // 2001:1800::/23
    Entry(V6, 0x10008d, 23, true), // 2001:1a00::/23
    Entry(V6, 0x1000a0, 23, true), // 2001:4000::/23
    Entry(V6, 0x1000a1, 23, true), // 2001:4200::/23
    Entry(V6, 0x1000a2, 23, true), // 2001:4400::/23
    Entry(V6, 0x1000a3, 23, true), // 2001:4600::/23
    Entry(V6, 0x1000a4, 23, true), // 2001:4800::/23
    Entry(V6, 0x1000a5, 23, true), // 2001:4a00::/23
    Entry(V6, 0x1000a6, 23, true), // 2001:4c00::/23
    Entry(V6, 0x130800, 23, true), // 2610::/23
    Entry(V6, 0x131000, 23, true)] // 2620::/23

  /** The two registries a decision consults. */
  datatype Policy = Policy(special: seq<Entry>, unicast: seq<Entry>)

  const PRODUCTION := Policy(SPECIAL4 + SPECIAL6, ALLOCATED6)

  // -- the decision --

  /** Longest match so far; an equally long one does not replace it. */
  function Best(table: seq<Entry>, a: Addr): Option<Entry> {
    if table == [] then None
    else
      var rest := Best(table[..|table| - 1], a);
      var e := table[|table| - 1];
      if Contains(e, a) && (rest.None? || e.bits > rest.value.bits) then Some(e) else rest
  }

  /** IPv4-mapped addresses, section 2.5.5.2 of RFC 4291, collapse to the IPv4 address. */
  function Unmap(a: Addr): Addr {
    if a.Six? && a.v6 / 0x1_0000_0000 == 0xffff then Four(a.v6 % 0x1_0000_0000) else a
  }

  /** The NAT64 well-known prefix 64:ff9b::/96, section 2.1 of RFC 6052. */
  predicate InNat64(a: Addr) {
    a.Six? && a.zone == "" && a.v6 / 0x1_0000_0000 == 0x64_ff9b_0000_0000_0000_0000
  }

  predicate Listed(table: seq<Entry>, a: Addr) {
    exists e :: e in table && Contains(e, a)
  }

  predicate Allows(p: Policy, addr: Addr)
    decreases if addr.Six? then 1 else 0
  {
    var a := Unmap(addr);
    if InNat64(a) then Allows(p, Four(a.v6 % 0x1_0000_0000))
    else
      match Best(p.special, a)
      case Some(e) => e.reachable
      case None => a.Four? || Listed(p.unicast, a)
  }

  // -- the longest match is unique --

  /** No two rows describe the same block. */
  ghost predicate Consistent(table: seq<Entry>) {
    forall e, f :: e in table && f in table && e.family == f.family && e.bits == f.bits && e.top == f.top ==> e == f
  }

  ghost predicate LongestMatch(table: seq<Entry>, a: Addr, e: Entry) {
    e in table && Contains(e, a) && forall f :: f in table && Contains(f, a) ==> f.bits <= e.bits
  }

  lemma {:induction false} BestIsLongest(table: seq<Entry>, a: Addr)
    ensures match Best(table, a)
            case Some(e) => LongestMatch(table, a, e)
            case None => forall e :: e in table ==> !Contains(e, a)
  {
    if table != [] {
      var init := table[..|table| - 1];
      BestIsLongest(init, a);
      assert table == init + [table[|table| - 1]];
    }
  }

  /** Two equally long prefixes of one address are the same block. */
  lemma LongestIsUnique(table: seq<Entry>, a: Addr, e: Entry, f: Entry)
    requires Consistent(table) && LongestMatch(table, a, e) && LongestMatch(table, a, f)
    ensures e == f
  {
  }

  /** The scan answers exactly the one longest matching row. */
  lemma BestIsExact(table: seq<Entry>, a: Addr, e: Entry)
    requires Consistent(table)
    ensures Best(table, a) == Some(e) <==> LongestMatch(table, a, e)
  {
    BestIsLongest(table, a);
    if LongestMatch(table, a, e) && Best(table, a).Some? {
      LongestIsUnique(table, a, e, Best(table, a).value);
    }
  }

  /** So the order of the rows, or repeating one, changes nothing. */
  lemma OrderDoesNotMatter(table: seq<Entry>, shuffled: seq<Entry>, a: Addr)
    requires Consistent(table) && forall e :: e in shuffled <==> e in table
    ensures Best(shuffled, a) == Best(table, a)
  {
    BestIsLongest(table, a);
    BestIsLongest(shuffled, a);
    if Best(shuffled, a).Some? {
      BestIsExact(table, a, Best(shuffled, a).value);
    }
  }

  predicate Before(e: Entry, f: Entry) {
    || (e.family == V4 && f.family == V6)
    || (e.family == f.family && (e.bits < f.bits || (e.bits == f.bits && e.top < f.top)))
  }

  ghost predicate Ascends(table: seq<Entry>) {
    forall k: nat :: k < |table| - 1 ==> Before(table[k], table[k + 1])
  }

  lemma Ascends4(i: nat)
    requires i < |SPECIAL4| - 1
    ensures Before(SPECIAL4[i], SPECIAL4[i + 1])
  {
    assert i in {0, 1, 2, 3, 4, 5, 6, 7, 8, 9, 10, 11, 12, 13, 14, 15, 16, 17, 18, 19, 20, 21, 22, 23, 24};
  }

  lemma Ascends6(i: nat)
    requires i < |SPECIAL6| - 1
    ensures Before(SPECIAL6[i], SPECIAL6[i + 1])
  {
    assert i in {0, 1, 2, 3, 4, 5, 6, 7, 8, 9, 10, 11, 12, 13, 14, 15, 16, 17, 18, 19, 20, 21, 22};
  }

  lemma {:induction false} AscendsThrough(table: seq<Entry>, i: nat, j: nat)
    requires Ascends(table) && i < j < |table|
    ensures Before(table[i], table[j])
  {
    if i + 1 < j {
      AscendsThrough(table, i, j - 1);
      assert Before(table[j - 1], table[j - 1 + 1]);
    } else {
      assert Before(table[i], table[i + 1]);
    }
  }

  /** Rows in ascending order describe no block twice. */
  lemma AscendingIsConsistent(table: seq<Entry>)
    requires Ascends(table)
    ensures Consistent(table)
  {
    forall e, f | e in table && f in table && e.family == f.family && e.bits == f.bits && e.top == f.top ensures e == f {
      var i :| 0 <= i < |table| && table[i] == e;
      var j :| 0 <= j < |table| && table[j] == f;
      if i < j {
        AscendsThrough(table, i, j);
      } else if j < i {
        AscendsThrough(table, j, i);
      }
    }
  }

  lemma JoinedIsConsistent(first: seq<Entry>, rest: seq<Entry>)
    requires Ascends(first) && Ascends(rest) && first != [] && rest != []
    requires Before(first[|first| - 1], rest[0])
    ensures Consistent(first + rest)
  {
    var joined := first + rest;
    forall k: nat | k < |joined| - 1 ensures Before(joined[k], joined[k + 1]) {
      if k >= |first| {
        assert Before(rest[k - |first|], rest[k - |first| + 1]);
      }
    }
    AscendingIsConsistent(joined);
  }

  /** The registry describes no block twice, so every scan of it is exact. */
  lemma ProductionIsConsistent()
    ensures Consistent(PRODUCTION.special)
  {
    forall k: nat | k < |SPECIAL4| - 1 ensures Before(SPECIAL4[k], SPECIAL4[k + 1]) {
      Ascends4(k);
    }
    forall k: nat | k < |SPECIAL6| - 1 ensures Before(SPECIAL6[k], SPECIAL6[k + 1]) {
      Ascends6(k);
    }
    JoinedIsConsistent(SPECIAL4, SPECIAL6);
  }

  // -- what the policy means --

  /** Every verdict comes from the unique longest registry match, or from the absence of any. */
  lemma VerdictIsTheLongestMatch(p: Policy, a: Addr)
    requires Consistent(p.special) && Unmap(a) == a && !InNat64(a)
    ensures forall e :: LongestMatch(p.special, a, e) ==> Allows(p, a) == e.reachable
    ensures (forall e :: e in p.special ==> !Contains(e, a)) ==> (Allows(p, a) <==> a.Four? || Listed(p.unicast, a))
  {
    BestIsLongest(p.special, a);
    forall e | LongestMatch(p.special, a, e) ensures Best(p.special, a) == Some(e) {
      BestIsExact(p.special, a, e);
    }
  }

  function Mapped(v: Word32, zone: string): Addr {
    Six(0xffff_0000_0000 + v, zone)
  }

  function Nat64(v: Word32): Addr {
    Six(0x64_ff9b_0000_0000_0000_0000_0000_0000 + v, "")
  }

  /** Writing an IPv4 address in either embedded form never changes its verdict. */
  lemma EmbeddedFormsShareTheVerdict(p: Policy, v: Word32, zone: string)
    ensures Allows(p, Mapped(v, zone)) == Allows(p, Four(v))
    ensures Allows(p, Nat64(v)) == Allows(p, Four(v))
  {
    assert Unmap(Mapped(v, zone)) == Four(v) && Unmap(Four(v)) == Four(v);
    assert Unmap(Nat64(v)) == Nat64(v) && InNat64(Nat64(v));
  }

  /** A zoned IPv6 address is refused, unless it is a mapped IPv4 one, whose zone is dropped. */
  lemma ZonedIsRefused(p: Policy, v: Word128, zone: string)
    requires zone != "" && Unmap(Six(v, zone)) == Six(v, zone)
    ensures !Allows(p, Six(v, zone))
  {
    BestIsLongest(p.special, Six(v, zone));
  }

  // -- dialing --

  /** Every resolved address, unmapped, without repeats and in resolver order; none if one is unusable. */
  function Targets(p: Policy, resolved: seq<Option<Addr>>): Option<seq<Addr>> {
    if resolved == [] then Some([])
    else
      match Targets(p, resolved[..|resolved| - 1])
      case None => None
      case Some(before) =>
        match resolved[|resolved| - 1]
        case None => None
        case Some(raw) =>
          var a := Unmap(raw);
          if !Allows(p, a) then None else if a in before then Some(before) else Some(before + [a])
  }

  predicate Usable(p: Policy, r: Option<Addr>) {
    r.Some? && Allows(p, Unmap(r.value))
  }

  /** All resolved addresses must be usable; the targets are then exactly their unmapped forms, once each. */
  lemma {:induction false} TargetsAreValidated(p: Policy, resolved: seq<Option<Addr>>)
    ensures Targets(p, resolved).Some? <==> forall i :: 0 <= i < |resolved| ==> Usable(p, resolved[i])
    ensures Targets(p, resolved).Some? ==>
              var t := Targets(p, resolved).value;
              && (forall a :: a in t ==> Allows(p, a))
              && (forall a :: a in t <==> Some(a) in Unmapped(resolved))
              && (forall i, j :: 0 <= i < j < |t| ==> t[i] != t[j])
              && (resolved != [] ==> t != [])
  {
    if resolved != [] {
      var init, last := resolved[..|resolved| - 1], resolved[|resolved| - 1];
      TargetsAreValidated(p, init);
      assert resolved == init + [last];
      assert Unmapped(resolved) == Unmapped(init) + [UnmapOption(last)];
    }
  }

  function UnmapOption(r: Option<Addr>): Option<Addr> {
    if r.Some? then Some(Unmap(r.value)) else None
  }

  function Unmapped(resolved: seq<Option<Addr>>): seq<Option<Addr>> {
    seq(|resolved|, i requires 0 <= i < |resolved| => UnmapOption(resolved[i]))
  }

  function FirstIndex(resolved: seq<Option<Addr>>, a: Addr): nat {
    if resolved == [] || UnmapOption(resolved[0]) == Some(a) then 0 else 1 + FirstIndex(resolved[1..], a)
  }

  lemma {:induction false} FirstIndexOfPrefix(resolved: seq<Option<Addr>>, last: Option<Addr>, a: Addr)
    ensures FirstIndex(resolved, a) <= |resolved|
    ensures FirstIndex(resolved, a) == |resolved| <==> Some(a) !in Unmapped(resolved)
    ensures FirstIndex(resolved + [last], a)
            == if FirstIndex(resolved, a) < |resolved| then FirstIndex(resolved, a)
               else if UnmapOption(last) == Some(a) then |resolved| else |resolved| + 1
  {
    if resolved != [] {
      assert (resolved + [last])[1..] == resolved[1..] + [last];
      FirstIndexOfPrefix(resolved[1..], last, a);
      assert Unmapped(resolved) == [UnmapOption(resolved[0])] + Unmapped(resolved[1..]);
    } else {
      assert ([last])[1..] == [];
    }
  }

  /** Targets keep the resolver's order of first appearance. */
  lemma {:induction false} TargetsKeepOrder(p: Policy, resolved: seq<Option<Addr>>)
    requires Targets(p, resolved).Some?
    ensures var t := Targets(p, resolved).value;
            forall i, j :: 0 <= i < j < |t| ==> FirstIndex(resolved, t[i]) < FirstIndex(resolved, t[j])
  {
    if resolved != [] {
      var init, last := resolved[..|resolved| - 1], resolved[|resolved| - 1];
      TargetsKeepOrder(p, init);
      TargetsAreValidated(p, init);
      assert resolved == init + [last];
      var before, t := Targets(p, init).value, Targets(p, resolved).value;
      forall i, j | 0 <= i < j < |t| ensures FirstIndex(resolved, t[i]) < FirstIndex(resolved, t[j]) {
        FirstIndexOfPrefix(init, last, t[i]);
        FirstIndexOfPrefix(init, last, t[j]);
        assert t[i] == before[i] && before[i] in before;
        assert j < |before| ==> t[j] == before[j] && before[j] in before;
      }
    }
  }

  // -- the program --

  method PolicyAllowsAddr(p: Policy, addr: Addr) returns (ok: bool)
    ensures ok == Allows(p, addr)
    decreases if addr.Six? then 1 else 0
  {
    var a := Unmap(addr);
    if InNat64(a) {
      ok := PolicyAllowsAddr(p, Four(a.v6 % 0x1_0000_0000));
      return;
    }
    var best: Option<Entry> := None;
    for i := 0 to |p.special|
      invariant best == Best(p.special[..i], a)
    {
      assert p.special[..i + 1][..i] == p.special[..i];
      if Contains(p.special[i], a) {
        if best.None? || p.special[i].bits > best.value.bits {
          best := Some(p.special[i]);
        }
      }
    }
    assert p.special[..|p.special|] == p.special;
    if best.Some? {
      ok := best.value.reachable;
    } else if a.Four? {
      ok := true;
    } else {
      ok := IsAllocatedGlobalUnicast(p.unicast, a);
    }
  }

  method IsAllocatedGlobalUnicast(unicast: seq<Entry>, a: Addr) returns (ok: bool)
    ensures ok == Listed(unicast, a)
  {
    for i := 0 to |unicast|
      invariant forall k :: 0 <= k < i ==> !Contains(unicast[k], a)
    {
      if Contains(unicast[i], a) {
        return true;
      }
    }
    ok := false;
  }

  datatype Host = Literal(addr: Addr) | Name(resolved: seq<Option<Addr>>)

  /** The addresses a host stands for, before any policy. */
  function Candidates(h: Host): seq<Option<Addr>> {
    match h case Literal(a) => [Some(a)] case Name(resolved) => resolved
  }

  /** Validates every resolved address; the first unusable one ends it with nothing to dial. */
  method CollectTargets(p: Policy, resolved: seq<Option<Addr>>) returns (targets: Option<seq<Addr>>)
    ensures targets == Targets(p, resolved)
  {
    TargetsAreValidated(p, resolved);
    var found: seq<Addr> := [];
    var seen: set<Addr> := {};
    for i := 0 to |resolved|
      invariant Targets(p, resolved[..i]) == Some(found)
      invariant forall a :: a in seen <==> a in found
    {
      assert resolved[..i + 1][..i] == resolved[..i];
      if resolved[i].None? {
        assert !Usable(p, resolved[i]);
        return None;
      }
      var ip := Unmap(resolved[i].value);
      var ok := PolicyAllowsAddr(p, ip);
      if !ok {
        assert !Usable(p, resolved[i]);
        return None;
      }
      if ip !in seen {
        seen := seen + {ip};
        found := found + [ip];
      }
    }
    assert resolved[..|resolved|] == resolved;
    targets := Some(found);
  }

  /** Dials in order until one answers or the caller gives up; answers[i] and cancelled[i] are what attempt i meets. */
  method DialTargets(targets: seq<Addr>, answers: seq<bool>, cancelled: seq<bool>) returns (dialled: seq<Addr>, connected: Option<Addr>)
    requires |answers| >= |targets| && |cancelled| >= |targets|
    ensures dialled <= targets
    ensures connected.Some? ==> dialled != [] && connected.value == dialled[|dialled| - 1]
    ensures connected.None? && (forall i :: 0 <= i < |targets| ==> !cancelled[i]) ==>
              dialled == targets && forall i :: 0 <= i < |targets| ==> !answers[i]
  {
    dialled, connected := [], None;
    for i := 0 to |targets|
      invariant dialled == targets[..i] && connected.None?
      invariant forall k :: 0 <= k < i ==> !answers[k]
    {
      if cancelled[i] {
        return;
      }
      dialled := dialled + [targets[i]];
      if answers[i] {
        connected := Some(targets[i]);
        return;
      }
    }
  }

  /** Connects only to validated addresses, and to nothing if any address of the host is unusable. */
  method HardenedDial(p: Policy, h: Host, answers: seq<bool>, cancelled: seq<bool>) returns (dialled: seq<Addr>, connected: Option<Addr>)
    requires forall t :: Targets(p, Candidates(h)) == Some(t) ==> |answers| >= |t| && |cancelled| >= |t|
    ensures Targets(p, Candidates(h)).None? ==> dialled == [] && connected.None?
    ensures Targets(p, Candidates(h)).Some? ==> dialled <= Targets(p, Candidates(h)).value
    ensures connected.Some? ==> dialled != [] && connected.value == dialled[|dialled| - 1] && Allows(p, connected.value)
  {
    TargetsAreValidated(p, Candidates(h));
    var targets := CollectTargets(p, Candidates(h));
    if targets.None? {
      return [], None;
    }
    dialled, connected := DialTargets(targets.value, answers, cancelled);
    assert forall i :: 0 <= i < |dialled| ==> dialled[i] == targets.value[i];
  }
}

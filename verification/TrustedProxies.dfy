/**
 The trusted proxy list of middleware/trusted_proxies.go, on parsed entries.

 An address is its bits, most significant first: 32 of them or 128. A prefix is an address and a
 number of leading bits (section 3.1 of RFC 4632), and it denotes the addresses that agree with it on
 those bits. The six allowed ranges are loopback, the private blocks of section 3 of RFC 1918 and the
 unique local addresses of section 3.1 of RFC 4193.
 */
module TrustedProxies {
  import opened Common

  datatype Family = V4 | V6

  function Width(f: Family): nat {
    if f.V4? then 32 else 128
  }

  datatype Address = Address(family: Family, bits: seq<bool>) {
    predicate Valid() {
      |bits| == Width(family)
    }
  }

  datatype Prefix = Prefix(addr: Address, length: nat) {
    predicate Valid() {
      addr.Valid() && length <= Width(addr.family)
    }
  }

  /** The address belongs to the prefix. */
  predicate Denotes(p: Prefix, a: Address) {
    p.Valid() && a.Valid() && a.family == p.addr.family && a.bits[..p.length] == p.addr.bits[..p.length]
  }

  function Zeros(n: nat): (r: seq<bool>)
    ensures |r| == n && forall i | 0 <= i < n :: !r[i]
  {
    seq(n, _ => false)
  }

  /** Prefix.Masked: the bits after the prefix cleared. */
  function Masked(p: Prefix): (r: Prefix)
    requires p.Valid()
    ensures r.Valid() && r.length == p.length && r.addr.family == p.addr.family
  {
    p.(addr := Address(p.addr.family, p.addr.bits[..p.length] + Zeros(Width(p.addr.family) - p.length)))
  }

  /** The test of privateProxyList for one boundary. */
  predicate Within(boundary: Prefix, p: Prefix)
    requires boundary.Valid() && p.Valid()
  {
    Denotes(boundary, Masked(p).addr) && p.length >= boundary.length
  }

  lemma MaskingKeepsMeaning(p: Prefix, a: Address)
    requires p.Valid()
    ensures Denotes(Masked(p), a) <==> Denotes(p, a)
    ensures Denotes(p, Masked(p).addr)
  {
    assert Masked(p).addr.bits[..p.length] == p.addr.bits[..p.length];
  }

  /** The test on the masked address and the lengths is exact set inclusion. */
  lemma WithinIsInclusion(boundary: Prefix, p: Prefix)
    requires boundary.Valid() && p.Valid()
    ensures Within(boundary, p) <==> forall a :: Denotes(p, a) ==> Denotes(boundary, a)
  {
    var m := Masked(p).addr;
    MaskingKeepsMeaning(p, m);
    if Within(boundary, p) {
      forall a | Denotes(p, a) ensures Denotes(boundary, a) {
        var n := boundary.length;
        assert a.bits[..n] == a.bits[..p.length][..n] == m.bits[..p.length][..n] == m.bits[..n];
      }
    } else if Denotes(boundary, m) {
      var flipped := Address(m.family, m.bits[p.length := true]);
      assert flipped.bits[..p.length] == m.bits[..p.length];
      assert Denotes(p, flipped);
      assert flipped.bits[..boundary.length][p.length] != m.bits[..boundary.length][p.length];
    }
  }

  // ----- the allowed ranges

  function Octet(n: nat): (r: seq<bool>)
    ensures |r| == 8
  {
    [n / 128 % 2 == 1, n / 64 % 2 == 1, n / 32 % 2 == 1, n / 16 % 2 == 1,
     n / 8 % 2 == 1, n / 4 % 2 == 1, n / 2 % 2 == 1, n % 2 == 1]
  }

  function Four(a: nat, b: nat, length: nat): (p: Prefix)
    requires length <= 32
    ensures p.Valid()
  {
    Prefix(Address(V4, Octet(a) + Octet(b) + Zeros(16)), length)
  }

  /** 127.0.0.0/8, ::1/128, 10.0.0.0/8, 172.16.0.0/12, 192.168.0.0/16, fc00::/7. */
  function Ranges(): (r: seq<Prefix>)
    ensures |r| == 6 && forall i | 0 <= i < 6 :: r[i].Valid()
  {
    [Four(127, 0, 8),
     Prefix(Address(V6, Zeros(120) + Octet(1)), 128),
     Four(10, 0, 8),
     Four(172, 16, 12),
     Four(192, 168, 16),
     Prefix(Address(V6, Octet(252) + Zeros(120)), 7)]
  }

  predicate Accepted(p: Prefix)
    requires p.Valid()
  {
    exists i | 0 <= i < 6 :: Within(Ranges()[i], p)
  }

  ghost predicate Private(a: Address) {
    exists i | 0 <= i < 6 :: Denotes(Ranges()[i], a)
  }

  /** Bits written as text. */
  function Bits(text: string): (r: seq<bool>)
    ensures |r| == |text| && forall i | 0 <= i < |r| :: r[i] == (text[i] == '1')
  {
    seq(|text|, i requires 0 <= i < |text| => text[i] == '1')
  }

  lemma Octet127()
    ensures Octet(127) == Bits("01111111")
  {
  }

  lemma Octet10()
    ensures Octet(10) == Bits("00001010")
  {
  }

  lemma Octet172()
    ensures Octet(172) == Bits("10101100")
  {
  }

  lemma Octet16()
    ensures Octet(16) == Bits("00010000")
  {
  }

  lemma Octet192()
    ensures Octet(192) == Bits("11000000")
  {
  }

  lemma Octet168()
    ensures Octet(168) == Bits("10101000")
  {
  }

  lemma Octet252()
    ensures Octet(252) == Bits("11111100")
  {
  }

  lemma Octet1()
    ensures Octet(1) == Bits("00000001")
  {
  }

  lemma LoopbackBits()
    ensures Zeros(120) + Octet(1) == Zeros(127) + [true]
  {
    Octet1();
    assert Bits("00000001") == Zeros(7) + [true];
    assert Zeros(120) + (Zeros(7) + [true]) == Zeros(127) + [true];
  }

  /** The first address of the block next to a range. */
  function Neighbour(r: Prefix): (a: Address)
    requires r.Valid() && r.length > 0
    ensures a.Valid()
  {
    Address(r.addr.family, r.addr.bits[r.length - 1 := !r.addr.bits[r.length - 1]])
  }

  /** A bit where the neighbour of range `i` leaves range `j`. */
  function LeavesAt(i: nat, j: nat): nat {
    match (i, j)
    case (0, 0) => 7
    case (0, 2) => 1
    case (2, 0) => 1
    case (2, 2) => 7
    case (3, 3) => 11
    case (3, 4) => 1
    case (4, 3) => 1
    case (4, 4) => 15
    case (1, 1) => 127
    case (5, 5) => 6
    case _ => 0
  }

  function BitOf(i: nat, k: nat): bool
    requires i < 6 && k < Width(Ranges()[i].addr.family)
  {
    Ranges()[i].addr.bits[k]
  }

  /** The bits of the ranges that tell them and their neighbours apart. */
  lemma TellingBits4()
    ensures !BitOf(0, 0) && BitOf(0, 1) && BitOf(0, 7)
    ensures !BitOf(2, 0) && !BitOf(2, 1) && !BitOf(2, 7)
    ensures BitOf(3, 0) && !BitOf(3, 1) && BitOf(3, 11)
    ensures BitOf(4, 0) && BitOf(4, 1) && !BitOf(4, 15)
  {
    Octet127();
    Octet10();
    Octet172();
    Octet16();
    Octet192();
    Octet168();
  }

  lemma TellingBits6()
    ensures !BitOf(1, 0) && BitOf(1, 127)
    ensures BitOf(5, 0) && !BitOf(5, 6)
  {
    Octet252();
    LoopbackBits();
  }

  lemma NeighbourOutside(i: nat, j: nat)
    requires i < 6 && j < 6
    ensures !Denotes(Ranges()[j], Neighbour(Ranges()[i]))
  {
    var r, s, k := Ranges()[j], Ranges()[i], LeavesAt(i, j);
    var a := Neighbour(s);
    if r.addr.family == a.family {
      TellingBits4();
      TellingBits6();
      assert k < r.length;
      assert a.bits[k] == if k == s.length - 1 then !BitOf(i, k) else BitOf(i, k);
      assert a.bits[..r.length][k] == a.bits[k] && r.addr.bits[..r.length][k] == BitOf(j, k);
    }
  }

  /** A refused entry contains an address outside every range. */
  lemma PublicAddress(p: Prefix) returns (a: Address)
    requires p.Valid() && !Accepted(p)
    ensures Denotes(p, a) && !Private(a)
  {
    var m := Masked(p).addr;
    MaskingKeepsMeaning(p, m);
    if i :| 0 <= i < 6 && Denotes(Ranges()[i], m) {
      var r := Ranges()[i];
      assert !Within(r, p);
      a := Neighbour(r);
      assert a.bits[..p.length] == r.addr.bits[..r.length][..p.length] == m.bits[..p.length];
      forall j | 0 <= j < 6 ensures !Denotes(Ranges()[j], a) {
        NeighbourOutside(i, j);
      }
    } else {
      a := m;
    }
  }

  /** An entry is accepted if and only if its whole address set lies in one of the six ranges, and that
      is the case if and only if every address of it is private: no prefix straddles two ranges. */
  lemma AcceptedExactly(p: Prefix)
    requires p.Valid()
    ensures Accepted(p) <==> exists i | 0 <= i < 6 :: forall a :: Denotes(p, a) ==> Denotes(Ranges()[i], a)
    ensures Accepted(p) <==> forall a :: Denotes(p, a) ==> Private(a)
  {
    forall i | 0 <= i < 6
      ensures Within(Ranges()[i], p) <==> forall a :: Denotes(p, a) ==> Denotes(Ranges()[i], a)
    {
      WithinIsInclusion(Ranges()[i], p);
    }
    if !Accepted(p) {
      var a := PublicAddress(p);
      assert Denotes(p, a) && !Private(a);
    }
  }

  /** The short ranges in bits: 127/8, 10/8, 172.16/12 and 192.168/16. */
  lemma ShortRanges(a: Address)
    requires a.Valid() && a.family == V4
    ensures Denotes(Ranges()[0], a) <==> a.bits[..8] == Bits("01111111")
    ensures Denotes(Ranges()[2], a) <==> a.bits[..8] == Bits("00001010")
    ensures Denotes(Ranges()[3], a) <==> a.bits[..12] == Bits("10101100") + Bits("0001")
    ensures Denotes(Ranges()[4], a) <==> a.bits[..16] == Bits("11000000") + Bits("10101000")
  {
    Octet127();
    Octet10();
    Octet172();
    Octet16();
    Octet192();
    Octet168();
    assert Bits("00010000")[..4] == Bits("0001");
    assert Four(127, 0, 8).addr.bits[..8] == Octet(127) && Four(10, 0, 8).addr.bits[..8] == Octet(10);
    assert Four(172, 16, 12).addr.bits[..12] == Octet(172) + Octet(16)[..4];
    assert Four(192, 168, 16).addr.bits[..16] == Octet(192) + Octet(168);
  }

  /** The long ones: fc00::/7 and ::1. */
  lemma LongRanges(a: Address)
    requires a.Valid() && a.family == V6
    ensures Denotes(Ranges()[5], a) <==> a.bits[..7] == Bits("1111110")
    ensures Denotes(Ranges()[1], a) <==> a.bits == Zeros(127) + [true]
  {
    Octet252();
    assert Bits("11111100")[..7] == Bits("1111110");
    assert Ranges()[5].addr.bits[..7] == Octet(252)[..7];
    LoopbackBits();
    assert a.bits[..128] == a.bits && Ranges()[1].addr.bits[..128] == Ranges()[1].addr.bits;
  }

  lemma PrivateIs(a: Address)
    ensures Private(a) <==> Denotes(Ranges()[0], a) || Denotes(Ranges()[1], a) || Denotes(Ranges()[2], a)
                            || Denotes(Ranges()[3], a) || Denotes(Ranges()[4], a) || Denotes(Ranges()[5], a)
  {
  }

  /** An address is private exactly when its leading bits are those of 127, of 10, of 172.16 to 172.31, or of
      192.168; and a long one when they are those of fc and fd, or when it is the loopback address 1. */
  lemma PrivateMeans(a: Address)
    requires a.Valid()
    ensures a.family == V4 ==>
              (Private(a) <==> a.bits[..8] == Bits("01111111") || a.bits[..8] == Bits("00001010")
                               || a.bits[..12] == Bits("10101100") + Bits("0001")
                               || a.bits[..16] == Bits("11000000") + Bits("10101000"))
    ensures a.family == V6 ==> (Private(a) <==> a.bits[..7] == Bits("1111110") || a.bits == Zeros(127) + [true])
  {
    PrivateIs(a);
    if a.family == V4 {
      ShortRanges(a);
    } else {
      LongRanges(a);
    }
  }

  // ----- the list

  /** An entry after parsing; None is one that is neither a prefix nor an address. */
  type Entry = Option<Prefix>

  predicate WellFormed(entries: seq<Entry>) {
    forall i | 0 <= i < |entries| :: entries[i].Some? ==> entries[i].value.Valid()
  }

  predicate Good(e: Entry)
    requires e.Some? ==> e.value.Valid()
  {
    e.Some? && Accepted(e.value)
  }

  /** privateProxyList. A blank setting is None and trusts nobody; one bad entry refuses the list. */
  method PrivateProxyList(setting: Option<seq<Entry>>) returns (r: Option<seq<Prefix>>)
    requires setting.Some? ==> WellFormed(setting.value)
    ensures setting == None ==> r == Some([])
    ensures setting.Some? ==> (r.Some? <==> forall i | 0 <= i < |setting.value| :: Good(setting.value[i]))
    ensures setting.Some? && r.Some? ==>
              |r.value| == |setting.value| && forall i | 0 <= i < |r.value| :: r.value[i] == Masked(setting.value[i].value)
  {
    if setting == None {
      return Some([]);
    }
    var entries := setting.value;
    var allowed := Ranges();
    var proxies: seq<Prefix> := [];
    var k := 0;
    while k < |entries|
      invariant 0 <= k <= |entries| && |proxies| == k
      invariant forall i | 0 <= i < k :: Good(entries[i]) && proxies[i] == Masked(entries[i].value)
    {
      var entry := entries[k];
      if entry == None {
        return None;
      }
      var prefix := Masked(entry.value);
      var private := false;
      var i := 0;
      while i < |allowed|
        invariant 0 <= i <= 6 && !private
        invariant forall j | 0 <= j < i :: !Within(Ranges()[j], entry.value)
      {
        var boundary := allowed[i];
        if Denotes(boundary, prefix.addr) && prefix.length >= boundary.length {
          assert Within(Ranges()[i], entry.value);
          private := true;
          break;
        }
        i := i + 1;
      }
      if !private {
        assert !Good(entries[k]);
        return None;
      }
      proxies := proxies + [prefix];
      k := k + 1;
    }
    r := Some(proxies);
  }

  ghost predicate Trusts(proxies: seq<Prefix>, a: Address) {
    exists i | 0 <= i < |proxies| :: Denotes(proxies[i], a)
  }

  /** An accepted list trusts exactly the addresses of its entries, and all of them are private. */
  lemma AcceptedListMeans(entries: seq<Prefix>, proxies: seq<Prefix>, a: Address)
    requires |proxies| == |entries|
    requires forall i | 0 <= i < |entries| :: entries[i].Valid() && Accepted(entries[i]) && proxies[i] == Masked(entries[i])
    ensures Trusts(proxies, a) <==> exists i | 0 <= i < |entries| :: Denotes(entries[i], a)
    ensures Trusts(proxies, a) ==> Private(a)
  {
    forall i | 0 <= i < |entries|
      ensures Denotes(proxies[i], a) <==> Denotes(entries[i], a)
      ensures Denotes(entries[i], a) ==> Private(a)
    {
      MaskingKeepsMeaning(entries[i], a);
      AcceptedExactly(entries[i]);
    }
  }
}

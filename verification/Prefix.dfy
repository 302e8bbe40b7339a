/**
Prefix containment for looking glass targets: a prefix is taken to lie in an allowed range when its
first and its last address do.

Addresses are byte strings of length 4 or 16. IPv4-mapped 16-byte addresses are read as 4-byte ones
by the address library, which is where the two-address test and the real inclusion come apart.
*/
module Prefix {

  function And(b: bv8, m: bv8): bv8 { b & m }

  // Sets the host bits: those the mask leaves clear.
  function Fill(b: bv8, m: bv8): bv8 { b | !m }

  datatype Net = Net(ip: seq<bv8>, mask: seq<bv8>) {
    ghost predicate WellFormed() {
      |ip| == |mask| && (|ip| == 4 || |ip| == 16)
    }

    // The stored address has no host bits, as parsing a CIDR leaves it.
    ghost predicate Canonical() {
      WellFormed() && forall i :: 0 <= i < |ip| ==> And(ip[i], mask[i]) == ip[i]
    }

    // Bit-level membership, for addresses of the network's own length.
    ghost predicate Has(address: seq<bv8>) {
      WellFormed() && |address| == |ip| && forall i :: 0 <= i < |ip| ==> And(address[i], mask[i]) == And(ip[i], mask[i])
    }
  }

  predicate Mapped(ip: seq<bv8>) {
    |ip| == 16 && (forall i :: 0 <= i < 10 ==> ip[i] == 0) && ip[10] == 0xff && ip[11] == 0xff
  }

  // The 4-byte form of an address if it has one, else the address itself.
  function Short(ip: seq<bv8>): seq<bv8> {
    if Mapped(ip) then ip[12..] else ip
  }

  function ShortMask(net: Net): seq<bv8> {
    if |Short(net.ip)| == 4 && |net.mask| == 16 then net.mask[12..] else net.mask
  }

  // The address library's membership test.
  predicate Contains(net: Net, address: seq<bv8>) {
    var nn, m, x := Short(net.ip), ShortMask(net), Short(address);
    |m| == |nn| && |x| == |nn| && forall i :: 0 <= i < |nn| ==> And(nn[i], m[i]) == And(x[i], m[i])
  }

  // The address with every host bit set; byte i of the short form is paired with mask byte i.
  function Last(net: Net): (last: seq<bv8>)
    requires net.WellFormed()
    ensures |last| == |Short(net.ip)|
  {
    var ip := Short(net.ip);
    seq(|ip|, i requires 0 <= i < |ip| => Fill(ip[i], net.mask[i]))
  }

  method LastIP(net: Net) returns (last: array<bv8>)
    requires net.WellFormed()
    ensures fresh(last) && last[..] == Last(net)
  {
    var ip := Short(net.ip);
    last := new bv8[|ip|](i requires 0 <= i < |ip| => ip[i]);
    for i := 0 to last.Length
      invariant forall j :: 0 <= j < i ==> last[j] == Last(net)[j]
      invariant forall j :: i <= j < last.Length ==> last[j] == ip[j]
    {
      hide And, Fill;
      last[i] := Fill(last[i], net.mask[i]);
    }
  }

  method ContainsPrefix(parent: Net, child: Net) returns (inside: bool)
    requires child.WellFormed()
    ensures inside == (Contains(parent, child.ip) && Contains(parent, Last(child)))
    ensures InOneFamily(parent, child) ==>
      (inside <==> !Mapped(child.ip) && !Mapped(Last(child)) && Subset(child, parent))
    ensures InTwoFamilies(parent, child) ==> !inside
    ensures MappedInShort(parent, child) ==>
      ((inside <==> Subset(Shorten(child), parent))
       <==> (Contains(parent, Shorten(child).ip) ==> Contains(parent, Last(Shorten(child)))))
  {
    Verdict(parent, child);
    hide And, Fill, Contains, Last, Subset, Shorten;
    inside := Contains(parent, child.ip);
    if inside {
      var last := LastIP(child);
      inside := Contains(parent, last[..]);
    }
  }

  ghost predicate InOneFamily(parent: Net, child: Net) {
    parent.WellFormed() && child.Canonical() && |parent.ip| == |child.ip| && !Mapped(parent.ip)
  }

  ghost predicate InTwoFamilies(parent: Net, child: Net) {
    parent.WellFormed() && child.WellFormed() && |parent.ip| != |child.ip| && !Mapped(parent.ip) && !Mapped(child.ip)
  }

  // A 4-byte range and an IPv4-mapped prefix of at least 96 bits.
  ghost predicate MappedInShort(parent: Net, child: Net) {
    && parent.WellFormed() && |parent.ip| == 4
    && child.Canonical() && Mapped(child.ip) && forall i :: 0 <= i < 12 ==> child.mask[i] == 0xff
  }

  // What the two-address test means, family by family.
  lemma Verdict(parent: Net, child: Net)
    requires child.WellFormed()
    ensures var verdict := Contains(parent, child.ip) && Contains(parent, Last(child));
      && (InOneFamily(parent, child) ==> (verdict <==> !Mapped(child.ip) && !Mapped(Last(child)) && Subset(child, parent)))
      && (InTwoFamilies(parent, child) ==> !verdict)
      && (MappedInShort(parent, child) ==>
            ((verdict <==> Subset(Shorten(child), parent))
             <==> (Contains(parent, Shorten(child).ip) ==> Contains(parent, Last(Shorten(child))))))
  {
    hide And, Fill, Contains, Last, Subset;
    if InOneFamily(parent, child) {
      TwoAddressesDecide(parent, child);
    }
    if InTwoFamilies(parent, child) {
      FamiliesStayApart(parent, child);
    }
    if MappedInShort(parent, child) {
      MappedVerdict(parent, child);
    }
  }

  ghost predicate Subset(child: Net, parent: Net) {
    forall a :: child.Has(a) ==> parent.Has(a)
  }

  // Within one family the two-address test decides inclusion of the whole prefix, except that a
  // 16-byte prefix whose first or last address is IPv4-mapped is always refused.
  lemma TwoAddressesDecide(parent: Net, child: Net)
    requires InOneFamily(parent, child)
    ensures Contains(parent, child.ip) && Contains(parent, Last(child))
       <==> !Mapped(child.ip) && !Mapped(Last(child)) && Subset(child, parent)
  {
    hide And, Fill;
    ContainsIsHas(parent, child.ip);
    ContainsIsHas(parent, Last(child));
    if !Mapped(child.ip) && !Mapped(Last(child)) {
      EndsAreMembers(child);
      hide Contains, Last, Mapped;
      if parent.Has(child.ip) && parent.Has(Last(child)) {
        EndsDecide(parent, child);
      }
    }
  }

  lemma ContainsIsHas(net: Net, address: seq<bv8>)
    requires net.WellFormed() && !Mapped(net.ip)
    ensures |address| == |net.ip| ==> (Contains(net, address) <==> !Mapped(address) && net.Has(address))
    ensures |net.ip| == 16 && |address| == 4 ==> !Contains(net, address)
  {
    hide And, Fill;
  }

  lemma EndsDecide(parent: Net, child: Net)
    requires parent.WellFormed() && child.Canonical() && |parent.ip| == |child.ip| && !Mapped(child.ip)
    requires parent.Has(child.ip) && parent.Has(Last(child))
    ensures Subset(child, parent)
  {
    hide And, Fill;
    forall a | child.Has(a)
      ensures parent.Has(a)
    {
      forall i | 0 <= i < |a|
        ensures And(a[i], parent.mask[i]) == And(parent.ip[i], parent.mask[i])
      {
        EndsDecideByte(parent, child, a, i);
      }
    }
  }

  lemma EndsDecideByte(parent: Net, child: Net, a: seq<bv8>, i: nat)
    requires parent.WellFormed() && child.Canonical() && |parent.ip| == |child.ip| && !Mapped(child.ip)
    requires parent.Has(child.ip) && parent.Has(Last(child)) && child.Has(a) && i < |a|
    ensures And(a[i], parent.mask[i]) == And(parent.ip[i], parent.mask[i])
  {
    hide And, Fill;
    var p, pm, c, cm, x := parent.ip[i], parent.mask[i], child.ip[i], child.mask[i], a[i];
    assert And(c, pm) == And(p, pm) && And(c, cm) == c && And(x, cm) == And(c, cm);
    assert Last(child)[i] == Fill(c, cm);
    assert And(Fill(c, cm), pm) == And(p, pm);
    ByteBetween(p, pm, c, cm, x);
  }

  // The byte-level reason: a bit the parent fixes cannot be a host bit of the child, because the
  // first address has it clear and the last has it set.
  lemma ByteBetween(p: bv8, pm: bv8, c: bv8, cm: bv8, a: bv8)
    requires And(c, cm) == c && And(p, pm) == And(c, pm) && And(p, pm) == And(Fill(c, cm), pm) && And(a, cm) == And(c, cm)
    ensures And(a, pm) == And(p, pm)
  {
  }

  lemma EndsAreMembers(net: Net)
    requires net.Canonical() && !Mapped(net.ip)
    ensures net.Has(net.ip) && net.Has(Last(net))
  {
    hide And, Fill;
    forall i | 0 <= i < |net.ip|
      ensures And(Last(net)[i], net.mask[i]) == And(net.ip[i], net.mask[i])
    {
      ByteFilled(net.ip[i], net.mask[i]);
    }
  }

  lemma ByteFilled(b: bv8, m: bv8)
    ensures And(Fill(b, m), m) == And(b, m)
  {
  }

  // A 4-byte range never contains a 16-byte prefix that is not IPv4-mapped, nor the other way round.
  lemma FamiliesStayApart(parent: Net, child: Net)
    requires InTwoFamilies(parent, child)
    ensures !Contains(parent, child.ip)
  {
    hide And, Fill;
  }

  // ----- the last address is the greatest one -----

  ghost function Value(address: seq<bv8>): nat {
    if address == [] then 0
    else Value(address[..|address| - 1]) * 256 + address[|address| - 1] as nat
  }

  lemma {:induction false} ValueMonotone(a: seq<bv8>, b: seq<bv8>)
    requires |a| == |b| && forall i :: 0 <= i < |a| ==> a[i] <= b[i]
    ensures Value(a) <= Value(b)
  {
    if a != [] {
      var n := |a| - 1;
      ValueMonotone(a[..n], b[..n]);
      assert a[n] <= b[n];
    }
  }

  lemma ByteAtMost(a: bv8, c: bv8, m: bv8)
    requires And(a, m) == And(c, m) && And(c, m) == c
    ensures c <= a <= Fill(c, m)
  {
  }

  // Every address of a prefix lies between its first and its last, and both belong to it.
  lemma LastIsGreatest(net: Net, a: seq<bv8>)
    requires net.Canonical() && !Mapped(net.ip) && net.Has(a)
    ensures net.Has(Last(net)) && net.Has(net.ip)
    ensures Value(net.ip) <= Value(a) <= Value(Last(net))
  {
    hide And, Fill;
    EndsAreMembers(net);
    forall i | 0 <= i < |a|
      ensures net.ip[i] <= a[i] <= Last(net)[i]
    {
      ByteAtMost(a[i], net.ip[i], net.mask[i]);
    }
    ValueMonotone(net.ip, a);
    ValueMonotone(a, Last(net));
  }

  // ----- IPv4-mapped prefixes -----

  // A mapped prefix of at least 96 bits gets its own network address as "last" address, so only
  // that one address is ever tested.
  lemma MappedTestsFirstOnly(parent: Net, child: Net)
    requires child.Canonical() && Mapped(child.ip)
    requires forall i :: 0 <= i < 12 ==> child.mask[i] == 0xff
    ensures Last(child) == Short(child.ip)
    ensures Contains(parent, Last(child)) == Contains(parent, child.ip)
  {
  }

  // The same prefix in its 4-byte form.
  function Shorten(net: Net): Net
    requires |net.ip| == |net.mask| == 16
  {
    Net(net.ip[12..], net.mask[12..])
  }

  // Such a prefix is judged rightly exactly when its real last address is in the range, or its
  // first one is not.
  lemma MappedVerdict(parent: Net, child: Net)
    requires MappedInShort(parent, child)
    ensures var verdict := Contains(parent, child.ip) && Contains(parent, Last(child));
      (verdict <==> Subset(Shorten(child), parent))
      <==> (Contains(parent, Shorten(child).ip) ==> Contains(parent, Last(Shorten(child))))
  {
    hide And, Fill;
    MappedTestsFirstOnly(parent, child);
    var short := Shorten(child);
    assert short.Canonical();
    assert Short(child.ip) == Short(short.ip);
    TwoAddressesDecide(parent, short);
  }

  const TEN_16 := Net([10, 0, 0, 0], [0xff, 0xff, 0, 0])
  const TEN_8 := Net([10, 0, 0, 0], [0xff, 0, 0, 0])

  // So ::ffff:10.0.0.0/104, whose 4-byte form is 10.0.0.0/8, passes as part of 10.0.0.0/16.
  lemma MappedPrefixMisjudged(child: Net)
    requires child.Canonical() && Mapped(child.ip) && Shorten(child) == TEN_8
    requires forall i :: 0 <= i < 12 ==> child.mask[i] == 0xff
    ensures Contains(TEN_16, child.ip) && Contains(TEN_16, Last(child))
    ensures !Subset(Shorten(child), TEN_16)
  {
    MappedTestsFirstOnly(TEN_16, child);
    assert Short(child.ip) == TEN_16.ip;
    var a: seq<bv8> := [10, 1, 0, 0];
    assert And(a[1], TEN_16.mask[1]) != And(TEN_16.ip[1], TEN_16.mask[1]);
    assert forall i :: 0 <= i < 4 ==> And(a[i], TEN_8.mask[i]) == And(TEN_8.ip[i], TEN_8.mask[i]);
    hide And, Fill;
    assert TEN_8.Has(a) && !TEN_16.Has(a);
  }

  // ----- the ranges the program allows -----

  const ANY_IPV4 := Net([0, 0, 0, 0], [0, 0, 0, 0])
  const ANY_IPV6 := Net(seq(16, _ => 0), seq(16, _ => 0))

  method IsAllowedPrefix(network: Net) returns (allowed: bool)
    requires network.Canonical()
    ensures allowed <==> !StraddlesMapped(network)
  {
    allowed := ContainsPrefix(ANY_IPV4, network);
    if !allowed {
      allowed := ContainsPrefix(ANY_IPV6, network);
    }
    hide And, Fill, Contains;
    AnyRange(network);
  }

  // An IPv6 prefix that begins outside the IPv4-mapped addresses and ends among them.
  ghost predicate StraddlesMapped(net: Net)
    requires net.WellFormed()
  {
    |net.ip| == 16 && !Mapped(net.ip) && Mapped(Last(net))
  }

  lemma ClearedByte(b: bv8)
    ensures And(b, 0) == 0
  {
  }

  lemma InAnyIpv4(address: seq<bv8>)
    ensures Contains(ANY_IPV4, address) <==> |Short(address)| == 4
  {
    hide And;
    assert Short(ANY_IPV4.ip) == ANY_IPV4.ip && ShortMask(ANY_IPV4) == ANY_IPV4.mask;
    forall i | 0 <= i < 4 && |Short(address)| == 4
      ensures And(ANY_IPV4.ip[i], ANY_IPV4.mask[i]) == And(Short(address)[i], ANY_IPV4.mask[i])
    {
      ClearedByte(Short(address)[i]);
      ClearedByte(ANY_IPV4.ip[i]);
    }
  }

  lemma InAnyIpv6(address: seq<bv8>)
    ensures Contains(ANY_IPV6, address) <==> |Short(address)| == 16
  {
    hide And;
    assert ANY_IPV6.ip[10] == 0;
    assert Short(ANY_IPV6.ip) == ANY_IPV6.ip && ShortMask(ANY_IPV6) == ANY_IPV6.mask;
    forall i | 0 <= i < 16 && |Short(address)| == 16
      ensures And(ANY_IPV6.ip[i], ANY_IPV6.mask[i]) == And(Short(address)[i], ANY_IPV6.mask[i])
    {
      ClearedByte(Short(address)[i]);
      ClearedByte(ANY_IPV6.ip[i]);
    }
  }

  // Every target is meant to be allowed; refused are exactly the prefixes that straddle.
  lemma AnyRange(net: Net)
    requires net.Canonical()
    ensures (Contains(ANY_IPV4, net.ip) && Contains(ANY_IPV4, Last(net))) || (Contains(ANY_IPV6, net.ip) && Contains(ANY_IPV6, Last(net)))
       <==> !StraddlesMapped(net)
  {
    hide And, Fill, Contains;
    InAnyIpv4(net.ip);
    InAnyIpv4(Last(net));
    InAnyIpv6(net.ip);
    InAnyIpv6(Last(net));
  }

  const ZEROS_80 := Net(seq(16, _ => 0), seq(16, i => if i < 10 then 0xff else 0))

  // ::/80 is such a prefix.
  lemma ZerosStraddle()
    ensures ZEROS_80.Canonical() && StraddlesMapped(ZEROS_80)
  {
    assert ZEROS_80.ip[10] == 0;
    forall i | 0 <= i < 16
      ensures And(ZEROS_80.ip[i], ZEROS_80.mask[i]) == ZEROS_80.ip[i]
      ensures Fill(ZEROS_80.ip[i], ZEROS_80.mask[i]) == if i < 10 then 0 else 0xff
    {
    }
  }
}

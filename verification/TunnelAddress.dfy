/**
Tunnel addresses: the two address kinds BGP may run over, and the addresses derived from an ASN.
IPv6 addresses are 128-bit numbers.
*/
module TunnelAddress {
  import opened Text
  import opened PeerNames

  const TWO_64 := 0x1_0000_0000_0000_0000
  const TWO_118 := 0x40_0000_0000_0000_0000_0000_0000_0000
  const TWO_121 := 0x200_0000_0000_0000_0000_0000_0000_0000
  const TWO_128 := TWO_64 * TWO_64
  const FE80 := 0xfe80_0000_0000_0000_0000_0000_0000_0000

  // fe80::/10
  predicate LinkLocal(address: nat) { address / TWO_118 == 0x3fa }

  // fc00::/7
  predicate Ula(address: nat) { address / TWO_121 == 0x7e }

  predicate TunnelKind(address: nat) { LinkLocal(address) || Ula(address) }

  ghost predicate SameKind(a: nat, b: nat) {
    (LinkLocal(a) && LinkLocal(b)) || (Ula(a) && Ula(b))
  }

  function StripZeros(s: string): (r: string)
    ensures r == "" || r[0] != '0'
    ensures |r| <= |s| && r == s[|s| - |r|..]
  {
    if s != "" && s[0] == '0' then StripZeros(s[1..]) else s
  }

  // An ASN without the prefix shared in the dn42 block, or its last four digits.
  function ShortSuffix(value: string): (r: string)
    requires AllDigits(value)
    ensures forall i :: 0 <= i < |r| ==> IsDigit(r[i])
  {
    if |value| < 4 then value
    else if |value| >= 6 && value[..6] == "424242" then value[6..]
    else value[|value| - 4..]
  }

  function Compact(suffix: string): (r: string)
    requires forall i :: 0 <= i < |suffix| ==> IsDigit(suffix[i])
    ensures AllDigits(r) && OnlyDigits(r) && (r == "0" || r[0] != '0')
  {
    var rest := StripZeros(suffix);
    if rest == "" then "0" else rest
  }

  // The short suffix of an ASN, without leading zeros.
  function AsnSuffix(asn: string): (r: Result<string, AsnError>)
    ensures r.Ok? ==> AllDigits(r.value) && OnlyDigits(r.value) && (r.value == "0" || r.value[0] != '0')
  {
    match NormalizeAsn(asn)
    case Err(e) => Err(e)
    case Ok(value) => Ok(Compact(ShortSuffix(value)))
  }

  // fe80::<suffix>, which is an address only when the suffix fits one group of four.
  function AsnLinkLocal(asn: string): Result<nat, AsnError> {
    match AsnSuffix(asn)
    case Err(e) => Err(e)
    case Ok(suffix) => if |suffix| > 4 then Err(SuffixTooLong) else Ok(FE80 + ValueIn(suffix, Sixteen))
  }

  function EffectiveAsn(nodeAsn: string, localAsn: string): string {
    if Strip(nodeAsn) != "" then Strip(nodeAsn) else Strip(localAsn)
  }

  // The first address of the peer's /64.
  function SubnetStart(peer: nat): nat { peer / TWO_64 * TWO_64 }

  // Our own tunnel address to match the peer's: link-local for a link-local one, otherwise the ASN
  // suffix counted up from the start of the peer's /64. None when that is no address.
  function DeriveLocal(ourAsn: string, peer: nat): Result<nat, AsnError> {
    if ourAsn == "" then Err(NotNumeric)
    else if LinkLocal(peer) then AsnLinkLocal(ourAsn)
    else
      match AsnSuffix(ourAsn)
      case Err(e) => Err(e)
      case Ok(suffix) =>
        var address := SubnetStart(peer) + ValueIn(suffix, Sixteen);
        if address < TWO_128 then Ok(address) else Err(SuffixTooLong)
  }

  // ----- what derivation guarantees -----

  lemma Powers()
    ensures Power(16, 4) == 0x1_0000 && Power(16, 16) == TWO_64
  {
    assert Power(16, 4) == 16 * (16 * (16 * (16 * Power(16, 0))));
    assert Power(16, 8) == 0x1_0000 * Power(16, 4);
    assert Power(16, 12) == 0x1_0000 * Power(16, 8);
    assert Power(16, 16) == 0x1_0000 * Power(16, 12);
  }

  // A suffix is below 2^64 exactly when it has at most sixteen digits.
  lemma SuffixFits(suffix: string)
    requires AllDigits(suffix) && (suffix == "0" || suffix[0] != '0')
    ensures ValueIn(suffix, Sixteen) < TWO_64 <==> |suffix| <= 16
  {
    Powers();
    ValueBounds(suffix);
    if |suffix| <= 16 {
      PowerGrows(16, |suffix|, 16);
    } else {
      PowerGrows(16, 16, |suffix| - 1);
    }
  }

  lemma LinkLocalDerived(asn: string)
    requires AsnLinkLocal(asn).Ok?
    ensures LinkLocal(AsnLinkLocal(asn).value) && !Ula(AsnLinkLocal(asn).value)
  {
    var suffix := AsnSuffix(asn).value;
    Powers();
    ValueBounds(suffix);
    PowerGrows(16, |suffix|, 4);
    var v := ValueIn(suffix, Sixteen);
    assert v < 0x1_0000;
  }

  lemma UlaRange(peer: nat)
    ensures Ula(peer) <==> 0x7e * TWO_121 <= peer < 0x7f * TWO_121
  {
  }

  lemma KindsDisjoint(address: nat)
    ensures !(LinkLocal(address) && Ula(address))
  {
    UlaRange(address);
  }

  lemma SameSubnet(peer: nat, offset: nat)
    ensures (peer / TWO_64 * TWO_64 + offset) / TWO_64 == peer / TWO_64 <==> offset < TWO_64
  {
    var q := peer / TWO_64;
    assert (q * TWO_64 + offset) / TWO_64 == q + offset / TWO_64;
  }

  // A /64 that meets the ULA block lies inside it.
  lemma SubnetStaysUla(peer: nat, address: nat)
    requires Ula(peer) && address / TWO_64 == peer / TWO_64
    ensures Ula(address)
  {
    assert TWO_121 == TWO_64 * 0x200_0000_0000_0000;
    UlaRange(peer);
    UlaRange(address);
  }

  // A derived address has the peer's kind and, for a ULA, lies in the peer's /64; for a ULA this
  // takes an ASN suffix of at most sixteen digits, and exactly that.
  lemma DerivedMatchesPeer(ourAsn: string, peer: nat)
    requires TunnelKind(peer) && DeriveLocal(ourAsn, peer).Ok?
    ensures var ours := DeriveLocal(ourAsn, peer).value;
      && AsnSuffix(ourAsn).Ok?
      && (LinkLocal(peer) ==> SameKind(ours, peer))
      && (!LinkLocal(peer) ==> (ours / TWO_64 == peer / TWO_64 <==> |AsnSuffix(ourAsn).value| <= 16))
      && (|AsnSuffix(ourAsn).value| <= 16 ==> SameKind(ours, peer))
  {
    if LinkLocal(peer) {
      LinkLocalDerived(ourAsn);
    } else {
      var suffix := AsnSuffix(ourAsn).value;
      SuffixFits(suffix);
      SameSubnet(peer, ValueIn(suffix, Sixteen));
      if |suffix| <= 16 {
        SubnetStaysUla(peer, DeriveLocal(ourAsn, peer).value);
      }
    }
  }

  // ----- which address an ASN gives -----

  lemma LinkLocalRange(address: nat)
    ensures LinkLocal(address) <==> FE80 <= address < 0xfec0_0000_0000_0000_0000_0000_0000_0000
  {
  }

  lemma UlaBlock(address: nat)
    ensures Ula(address)
       <==> 0xfc00_0000_0000_0000_0000_0000_0000_0000 <= address < 0xfe00_0000_0000_0000_0000_0000_0000_0000
  {
    UlaRange(address);
  }

  // The number an ASN puts into addresses: its digits behind a leading 424242, else its last four,
  // read as hexadecimal ones.
  ghost predicate SuffixValue(digits: string, v: nat)
    requires AllDigits(digits)
  {
    if |digits| >= 6 && digits[..6] == "424242"
    then OnlyDigits(digits[6..]) && v == ValueIn(digits[6..], Sixteen)
    else OnlyDigits(LastChars(digits, 4)) && v == ValueIn(LastChars(digits, 4), Sixteen)
  }

  lemma {:induction false} ZerosStripped(s: string)
    requires OnlyDigits(s)
    ensures OnlyDigits(StripZeros(s)) && ValueIn(StripZeros(s), Sixteen) == ValueIn(s, Sixteen)
  {
    if s != "" && s[0] == '0' {
      ZerosStripped(s[1..]);
      ValueZero(s[1..], Sixteen);
      assert s == "0" + s[1..];
    }
  }

  lemma CompactValue(s: string)
    requires OnlyDigits(s)
    ensures ValueIn(Compact(s), Sixteen) == ValueIn(s, Sixteen)
  {
    ZerosStripped(s);
    hide StripZeros;
    if StripZeros(s) == "" {
      assert "0"[..0] == "" && ValueIn("0", Sixteen) == 16 * ValueIn("", Sixteen) + Digit('0');
    }
  }

  lemma SuffixOf(asn: string, digits: string, v: nat)
    requires NormalizeAsn(asn) == Ok(digits) && SuffixValue(digits, v)
    ensures AsnSuffix(asn).Ok? && ValueIn(AsnSuffix(asn).value, Sixteen) == v
  {
    hide NormalizeAsn, Compact, ValueIn;
    assert OnlyDigits(ShortSuffix(digits));
    CompactValue(ShortSuffix(digits));
    if |digits| < 4 {
      assert LastChars(digits, 4) == digits;
    }
  }

  lemma FourDigitSuffix(suffix: string)
    requires AllDigits(suffix) && (suffix == "0" || suffix[0] != '0')
    ensures ValueIn(suffix, Sixteen) < 0x1_0000 <==> |suffix| <= 4
  {
    Powers();
    ValueBounds(suffix);
    if |suffix| <= 4 {
      PowerGrows(16, |suffix|, 4);
    } else {
      PowerGrows(16, 4, |suffix| - 1);
    }
  }

  lemma AsnLinkLocalOf(asn: string, suffix: string)
    requires AsnSuffix(asn) == Ok(suffix)
    ensures AllDigits(suffix)
    ensures AsnLinkLocal(asn) == if |suffix| > 4 then Err(SuffixTooLong) else Ok(FE80 + ValueIn(suffix, Sixteen))
  {
    hide AsnSuffix, ValueIn;
  }

  lemma DeriveLocalOf(asn: string, suffix: string, peer: nat)
    requires asn != "" && AsnSuffix(asn) == Ok(suffix)
    ensures AllDigits(suffix)
    ensures DeriveLocal(asn, peer) ==
      if LinkLocal(peer) then AsnLinkLocal(asn)
      else
        var address := peer / TWO_64 * TWO_64 + ValueIn(suffix, Sixteen);
        if address < TWO_128 then Ok(address) else Err(SuffixTooLong)
  {
    hide AsnSuffix, ValueIn, AsnLinkLocal, LinkLocal;
  }

  // An ASN's link-local address is fe80:: plus its number, and there is none for more than 16 bits.
  lemma AsnAddress(asn: string, digits: string, v: nat)
    requires NormalizeAsn(asn) == Ok(digits) && SuffixValue(digits, v)
    ensures AsnLinkLocal(asn) == if v < 0x1_0000 then Ok(FE80 + v) else Err(SuffixTooLong)
  {
    hide *;
    SuffixOf(asn, digits, v);
    AsnLinkLocalOf(asn, AsnSuffix(asn).value);
    FourDigitSuffix(AsnSuffix(asn).value);
  }

  // Our own address for a peer: that one for a link-local peer, else the number counted up from the
  // start of the peer's /64.
  lemma OurAddress(asn: string, digits: string, v: nat, peer: nat)
    requires NormalizeAsn(asn) == Ok(digits) && SuffixValue(digits, v)
    ensures DeriveLocal(asn, peer) ==
      if LinkLocal(peer) then (if v < 0x1_0000 then Ok(FE80 + v) else Err(SuffixTooLong))
      else if peer / TWO_64 * TWO_64 + v < TWO_128 then Ok(peer / TWO_64 * TWO_64 + v) else Err(SuffixTooLong)
  {
    hide NormalizeAsn, AsnSuffix, AsnLinkLocal, DeriveLocal, ValueIn, SuffixValue, LinkLocal;
    AsnAddress(asn, digits, v);
    SuffixOf(asn, digits, v);
    EmptyAsn();
    DeriveLocalOf(asn, AsnSuffix(asn).value, peer);
  }

  lemma EmptyAsn()
    ensures NormalizeAsn("").Err?
  {
    StripKeepsTrimmed("");
    hide Strip;
    assert Upper("") == "";
  }

  // In the dn42 block the number is the last four digits.
  lemma Dn42SuffixValue(asn: string)
    requires Dn42Asn(asn)
    ensures AllDigits(LastChars(asn, 4)) && |LastChars(asn, 4)| == 4 && ValueIn(LastChars(asn, 4), Sixteen) < 0x1_0000
    ensures NormalizeAsn(asn) == Ok(asn) && SuffixValue(asn, ValueIn(LastChars(asn, 4), Sixteen))
  {
    DigitsStandAlone(asn);
    Dn42Value(asn);
    Powers();
    ValueBounds(LastChars(asn, 4));
    hide NormalizeAsn, ValueIn;
    assert asn[6..] == LastChars(asn, 4);
  }

  // So there, AS424242wxyz has the link-local address fe80::wxyz.
  lemma Dn42Address(asn: string, peer: nat)
    requires Dn42Asn(asn) && Ula(peer)
    ensures AllDigits(LastChars(asn, 4))
    ensures AsnLinkLocal(asn) == Ok(FE80 + ValueIn(LastChars(asn, 4), Sixteen))
    ensures DeriveLocal(asn, peer) == Ok(peer / TWO_64 * TWO_64 + ValueIn(LastChars(asn, 4), Sixteen))
  {
    hide AsnLinkLocal, DeriveLocal, ValueIn, SuffixValue, NormalizeAsn, Dn42Asn, LastChars;
    Dn42SuffixValue(asn);
    var v := ValueIn(LastChars(asn, 4), Sixteen);
    AsnAddress(asn, asn, v);
    OurAddress(asn, asn, v, peer);
    KindsDisjoint(peer);
    UlaRange(peer);
    hide LinkLocal, Ula;
    SubnetFits(peer, v);
  }

  lemma SubnetFits(peer: nat, v: nat)
    requires peer < 0x7f * TWO_121 && v < TWO_64
    ensures peer / TWO_64 * TWO_64 + v < TWO_128
  {
    assert peer / TWO_64 * TWO_64 <= peer;
  }

  // And no two of the block share an address, neither a link-local nor a derived one.
  lemma Dn42AddressesDiffer(a: string, b: string, peer: nat)
    requires Dn42Asn(a) && Dn42Asn(b) && a != b && Ula(peer)
    ensures AsnLinkLocal(a) != AsnLinkLocal(b) && DeriveLocal(a, peer) != DeriveLocal(b, peer)
  {
    Dn42Address(a, peer);
    Dn42Address(b, peer);
    Dn42Value(a);
    Dn42Value(b);
    hide AsnLinkLocal, DeriveLocal, Dn42Asn, Ula;
    if ValueIn(LastChars(a, 4), Sixteen) == ValueIn(LastChars(b, 4), Sixteen) {
      ValueInjective(LastChars(a, 4), LastChars(b, 4), Sixteen);
    }
  }
}

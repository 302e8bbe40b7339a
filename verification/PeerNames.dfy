/**
What is derived from a peer's ASN and id: the WireGuard listen port, the name shared by the
interface, the config files and the BIRD protocol, and the paths of those files on the node.
*/
module PeerNames {
  import opened Text
  import Paths

  datatype AsnError = NotNumeric | PortOutOfRange | SuffixTooLong

  function NormalizeAsn(asn: string): (r: Result<string, AsnError>)
    ensures r.Ok? ==> AllDigits(r.value)
  {
    var upper := Upper(Strip(asn));
    var value := if |upper| >= 2 && upper[..2] == "AS" then upper[2..] else upper;
    if AllDigits(value) then Ok(value) else Err(NotNumeric)
  }

  function ListenPort(asn: string): (r: Result<nat, AsnError>)
    ensures r.Ok? ==> 1 <= r.value <= 65535
  {
    match NormalizeAsn(asn)
    case Err(e) => Err(e)
    case Ok(value) =>
      var port := ValueIn(LastChars(value, 5), Ten);
      if port < 1 || port > 65535 then Err(PortOutOfRange) else Ok(port)
  }

  const NAME_PREFIX := "DN42_"

  function ProtocolName(asn: string, id: string): (r: Result<string, AsnError>) {
    match NormalizeAsn(asn)
    case Err(e) => Err(e)
    case Ok(value) => Ok(NAME_PREFIX + LastChars(value, 4) + "_" + LastChars(id, 4))
  }

  predicate NameChar(c: char) {
    'A' <= c <= 'Z' || 'a' <= c <= 'z' || IsDigit(c) || c == '_'
  }

  // The node's rule for names that become file names and command arguments.
  predicate SafeName(name: string) {
    && 1 <= |name| <= 80 && NameChar(name[0])
    && forall i :: 1 <= i < |name| ==> NameChar(name[i]) || name[i] == '-'
  }

  // A ten-digit ASN of the 424242xxxx block.
  predicate Dn42Asn(asn: string) {
    AllDigits(asn) && |asn| == 10 && asn[..6] == "424242"
  }

  // A peer id as generated: a UUID, which ends in hexadecimal digits.
  predicate PeerId(id: string) {
    |id| >= 4 && forall i :: |id| - 4 <= i < |id| ==> IsDigit(id[i]) || 'a' <= id[i] <= 'f'
  }

  const SUFFIX := ".conf"

  // The name's configuration file in a directory.
  function FilePath(dir: string, name: string): string {
    Paths.Join(dir, name + SUFFIX)
  }

  // ----- derived values in the dn42 block -----

  lemma DigitsStandAlone(asn: string)
    requires AllDigits(asn)
    ensures NormalizeAsn(asn) == Ok(asn)
  {
    assert IsDigit(asn[0]) && IsDigit(asn[|asn| - 1]);
    StripKeepsTrimmed(asn);
    assert Upper(asn) == asn;
  }

  lemma Dn42Value(asn: string)
    requires Dn42Asn(asn)
    ensures LastChars(asn, 5) == "2" + LastChars(asn, 4) && AllDigits(LastChars(asn, 4))
    ensures asn == "424242" + LastChars(asn, 4)
  {
    assert asn == asn[..6] + asn[6..];
    assert asn[5..] == [asn[5]] + asn[6..] && asn[..6][5] == asn[5];
  }

  lemma FourDigits(s: string)
    requires AllDigits(s) && |s| == 4
    ensures ValueIn(s, Ten) < 10000 && AllDigits("2" + s) && ValueIn("2" + s, Ten) == 20000 + ValueIn(s, Ten)
  {
    ValuePrepend('2', s);
    assert Power(10, 4) == 10 * (10 * (10 * (10 * Power(10, 0))));
  }

  lemma Dn42Port(asn: string)
    requires Dn42Asn(asn)
    ensures AllDigits(LastChars(asn, 4)) && |LastChars(asn, 4)| == 4
    ensures ListenPort(asn) == Ok(20_000 + ValueIn(LastChars(asn, 4), Ten)) && ValueIn(LastChars(asn, 4), Ten) < 10_000
  {
    DigitsStandAlone(asn);
    Dn42Value(asn);
    FourDigits(LastChars(asn, 4));
    hide NormalizeAsn, ValueIn, AllDigits, Dn42Asn;
  }

  // In the dn42 block every peer gets a port of its own between 20000 and 29999.
  lemma Dn42Ports(a: string, b: string)
    requires Dn42Asn(a) && Dn42Asn(b)
    ensures ListenPort(a).Ok? && 20000 <= ListenPort(a).value <= 29999
    ensures ListenPort(a) == ListenPort(b) <==> a == b
  {
    hide ListenPort, ValueIn, AllDigits, LastChars, Dn42Asn;
    Dn42Port(a);
    Dn42Port(b);
    Dn42Value(a);
    Dn42Value(b);
    if ListenPort(a) == ListenPort(b) {
      ValueInjective(LastChars(a, 4), LastChars(b, 4), Ten);
    }
  }

  // In general the port is the ASN modulo 100000, if that is a port at all.
  lemma PortIsLastDigits(asn: string, digits: string)
    requires NormalizeAsn(asn) == Ok(digits)
    ensures var port := ValueIn(digits, Ten) % 100_000;
      ListenPort(asn) == if 1 <= port <= 65535 then Ok(port) else Err(PortOutOfRange)
  {
    hide NormalizeAsn, ValueIn;
    TenPowers();
    var q := ValueOfLast(digits, 5);
    hide Power, LastChars;
  }

  // So one peer per ASN and node does not keep ports apart: they clash exactly when the ASNs agree
  // modulo 100000, in a value that is a port.
  lemma PortsClash(a: string, x: string, b: string, y: string)
    requires NormalizeAsn(a) == Ok(x) && NormalizeAsn(b) == Ok(y)
    ensures ListenPort(a).Ok? && ListenPort(a) == ListenPort(b)
       <==> 1 <= ValueIn(x, Ten) % 100_000 <= 65535 && ValueIn(x, Ten) % 100_000 == ValueIn(y, Ten) % 100_000
  {
    PortIsLastDigits(a, x);
    PortIsLastDigits(b, y);
    hide NormalizeAsn, ValueIn, ListenPort;
  }

  lemma TenPowers()
    ensures Power(10, 4) == 10_000 && Power(10, 5) == 100_000
  {
    assert Power(10, 4) == 10 * (10 * (10 * (10 * Power(10, 0))));
  }

  // A number may be written with white space around it and with "AS", in either case, before it.
  lemma AsnSpellings(asn: string, digits: string)
    ensures NormalizeAsn(asn) == Ok(digits) <==> AllDigits(digits) && (Strip(asn) == digits || HasPrefix(Strip(asn), digits))
  {
    var text := Strip(asn);
    UpperDigits(text);
    if |text| >= 2 {
      UpperDigits(text[2..]);
      assert Upper(text)[2..] == Upper(text[2..]);
    }
    hide Strip, AllDigits;
    assert Upper(text) == Upper(Strip(asn));
    if |text| >= 2 {
      PrefixUpper(text);
    }
  }

  // The text is "AS", in either case, followed by the digits.
  predicate HasPrefix(text: string, digits: string) {
    |text| >= 2 && (text[0] == 'A' || text[0] == 'a') && (text[1] == 'S' || text[1] == 's') && text[2..] == digits
  }

  lemma PrefixUpper(text: string)
    requires |text| >= 2
    ensures Upper(text)[..2] == "AS" <==> (text[0] == 'A' || text[0] == 'a') && (text[1] == 'S' || text[1] == 's')
  {
    var head := Upper(text)[..2];
    assert head == [UpperChar(text[0]), UpperChar(text[1])];
    assert "AS" == ['A', 'S'];
    assert head == "AS" <==> head[0] == 'A' && head[1] == 'S';
  }

  lemma UpperDigits(s: string)
    ensures AllDigits(Upper(s)) <==> AllDigits(s)
    ensures AllDigits(s) ==> Upper(s) == s && !(|s| >= 2 && s[..2] == "AS")
  {
    assert forall i :: 0 <= i < |s| ==> (IsDigit(Upper(s)[i]) <==> IsDigit(s[i]));
    if AllDigits(s) && |s| >= 2 {
      assert IsDigit(s[0]) && s[..2][0] == s[0];
    }
  }

  // Names clash exactly when the ASNs agree in their last four digits and the ids in their last
  // four characters.
  lemma NamesClash(a: string, i: string, b: string, j: string)
    requires AllDigits(a) && AllDigits(b) && |i| >= 4 && |j| >= 4
    ensures ProtocolName(a, i) == ProtocolName(b, j)
       <==> LastChars(a, 4) == LastChars(b, 4) && LastChars(i, 4) == LastChars(j, 4)
  {
    DigitsStandAlone(a);
    DigitsStandAlone(b);
    hide Upper, Strip, AllDigits;
    PartsAgree(LastChars(a, 4), LastChars(i, 4), LastChars(b, 4), LastChars(j, 4));
  }

  lemma PartsAgree(p: string, s: string, q: string, t: string)
    requires |s| == |t|
    ensures NAME_PREFIX + p + "_" + s == NAME_PREFIX + q + "_" + t <==> p == q && s == t
  {
    var m, n := NAME_PREFIX + p + "_" + s, NAME_PREFIX + q + "_" + t;
    if m == n {
      assert |p| == |q|;
      assert p == m[5..5 + |p|] && q == n[5..5 + |p|];
      assert s == m[|m| - |s|..] && t == n[|n| - |s|..];
    }
  }

  // A peer's name spells out the end of its ASN and the end of its id.
  lemma NameReads(asn: string, digits: string, id: string, name: string)
    requires NormalizeAsn(asn) == Ok(digits) && |digits| >= 4 && |id| >= 4
    ensures ProtocolName(asn, id) == Ok(name) <==>
      && |name| == 14 && name[..5] == "DN42_" && name[5..9] == digits[|digits| - 4..] && name[9] == '_' && name[10..] == id[|id| - 4..]
  {
    hide NormalizeAsn;
    var last, tail := digits[|digits| - 4..], id[|id| - 4..];
    var whole := NAME_PREFIX + last + "_" + tail;
    assert ProtocolName(asn, id) == Ok(whole);
    assert whole[..5] == "DN42_" && whole[5..9] == last && whole[9] == '_' && whole[10..] == tail;
    if |name| == 14 {
      assert name == name[..5] + name[5..9] + [name[9]] + name[10..];
    }
  }

  // In the dn42 block the ASN alone tells names apart, whatever the ids.
  lemma Dn42Names(a: string, i: string, b: string, j: string)
    requires Dn42Asn(a) && Dn42Asn(b) && PeerId(i) && PeerId(j) && a != b
    ensures ProtocolName(a, i).Ok? && ProtocolName(a, i) != ProtocolName(b, j)
  {
    DigitsStandAlone(a);
    NamesClash(a, i, b, j);
    Dn42Value(a);
    Dn42Value(b);
  }

  lemma TwoAsns()
    ensures AllDigits("4242425001") && AllDigits("65001")
    ensures LastChars("4242425001", 4) == LastChars("65001", 4)
  {
    assert "4242425001"[6..] == "5001" && "65001"[1..] == "5001";
  }

  // Outside the block the ASN does not: these two share a name on one node if their ids end alike.
  lemma NamesClashOutsideBlock(i: string, j: string)
    requires |i| >= 4 && |j| >= 4 && LastChars(i, 4) == LastChars(j, 4)
    ensures ProtocolName("4242425001", i) == ProtocolName("65001", j)
  {
    hide ProtocolName, AllDigits, LastChars;
    TwoAsns();
    NamesClash("4242425001", i, "65001", j);
  }

  predicate NameChars(s: string) { forall k :: 0 <= k < |s| ==> NameChar(s[k]) }

  lemma ConcatIsSafe(digits: string, tail: string)
    requires NameChars(digits) && NameChars(tail) && |digits| <= 4 && |tail| <= 4
    ensures SafeName(NAME_PREFIX + digits + "_" + tail) && |NAME_PREFIX + digits + "_" + tail| <= 15
  {
    var name := NAME_PREFIX + digits + "_" + tail;
    assert NameChars(NAME_PREFIX) && NameChars("_");
    assert name[0] == NAME_PREFIX[0];
    assert NameChars(name);
  }

  lemma EndOfDigits(digits: string)
    requires AllDigits(digits)
    ensures NameChars(LastChars(digits, 4))
  {
    var end := LastChars(digits, 4);
    assert forall k :: 0 <= k < |end| ==> end[k] == digits[|digits| - |end| + k];
  }

  lemma EndOfId(id: string)
    requires PeerId(id)
    ensures NameChars(LastChars(id, 4))
  {
    var end := LastChars(id, 4);
    assert forall k :: 0 <= k < 4 ==> end[k] == id[|id| - 4 + k];
  }

  // Every derived name passes the node's rule and fits a Linux interface name.
  lemma DerivedNameIsSafe(asn: string, id: string)
    requires PeerId(id) && ProtocolName(asn, id).Ok?
    ensures SafeName(ProtocolName(asn, id).value) && |ProtocolName(asn, id).value| <= 15
  {
    hide NormalizeAsn, AllDigits, PeerId, SafeName, NameChars, LastChars;
    EndOfDigits(NormalizeAsn(asn).value);
    EndOfId(id);
    ConcatIsSafe(LastChars(NormalizeAsn(asn).value, 4), LastChars(id, 4));
  }

  lemma FileNameIsProper(name: string)
    requires SafeName(name)
    ensures Paths.Proper(name + SUFFIX)
  {
    var file := name + SUFFIX;
    assert |file| >= 6;
    forall k | 0 <= k < |file|
      ensures file[k] != Paths.SLASH
    {
      if k >= |name| {
        assert file[k] == SUFFIX[k - |name|];
      }
    }
  }

  lemma SameFileName(n: string, m: string)
    ensures n + SUFFIX == m + SUFFIX <==> n == m
  {
    assert (n + SUFFIX)[..|n + SUFFIX| - 5] == n && (m + SUFFIX)[..|m + SUFFIX| - 5] == m;
  }

  // Paths built from safe names tell directory and name apart, however the directory is written.
  lemma PathInjective(d: string, n: string, e: string, m: string)
    requires SafeName(n) && SafeName(m)
    ensures FilePath(d, n) == FilePath(e, m) <==> Paths.Clean(d) == Paths.Clean(e) && n == m
  {
    hide Paths.Join, Paths.Clean, Paths.Proper;
    FileNameIsProper(n);
    FileNameIsProper(m);
    SameFileName(n, m);
    Paths.JoinInjective(d, n + SUFFIX, e, m + SUFFIX);
  }

  // The node's guard against writing outside its directories never refuses such a path.
  lemma PathStaysInside(cwd: string, dir: string, name: string)
    requires Paths.Rooted(cwd) && SafeName(name)
    ensures !Paths.Refused(Paths.Relative(Paths.PlaceOf(Paths.Absolute(cwd, dir)).parts,
                                          Paths.PlaceOf(Paths.Absolute(cwd, FilePath(dir, name))).parts))
  {
    hide Paths.Join, Paths.Absolute, Paths.PlaceOf, Paths.Relative, Paths.Refused, Paths.Proper;
    FileNameIsProper(name);
    Paths.GuardPassesFiles(cwd, dir, name + SUFFIX);
  }

  // Every such path ends in the suffix, so no temporary file's name is one.
  lemma PathEndsInSuffix(dir: string, name: string, temporary: string)
    requires SafeName(name) && |temporary| >= 4 && temporary[|temporary| - 4..] == ".tmp"
    ensures FilePath(dir, name) != temporary
  {
    FileNameIsProper(name);
    Paths.JoinPlace(dir, name + SUFFIX);
    Paths.BelowIsClean(dir, name + SUFFIX);
    var place := Paths.Place(Paths.Rooted(dir), Paths.PlaceOf(dir).parts + [name + SUFFIX]);
    hide Paths.Join, Paths.PlaceOf;
    Paths.ShowEnds(place);
    var shown := Paths.Show(place);
    hide Paths.Show, Paths.Proper;
    assert shown[|shown| - 1] == (name + SUFFIX)[|name| + 4] == 'f';
    assert temporary[|temporary| - 4..][3] == 'p';
  }
}

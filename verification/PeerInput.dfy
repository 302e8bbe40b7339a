/**
Normalising what a user submits for a peer, and submitting it again from the confirmation page.

Address fields are taken as parsed: blank, unparsable, or an address with whatever prefix length
was written after it. Host syntax (IP literals, host names) is a parameter.
*/
module PeerInput {
  import opened Text
  import opened TunnelAddress

  const DEFAULT_MTU := 1420
  const MIN_MTU := 1280
  const MAX_MTU := 9000

  datatype AddressField = Blank | Unparsable | V4(value: nat, prefix: string) | V6(value: nat, prefix: string)

  datatype MtuField = NoMtu | MtuNumber(n: int) | MtuText(text: string)

  datatype SwitchField = Absent | Switch(on: bool) | SwitchText(text: string)

  datatype HostRules = HostRules(ipv6: string -> bool, ip: string -> bool, hostname: string -> bool)

  datatype Input = Input(endpoint: string, key: string, mtu: MtuField, ipv4: AddressField, ipv6: AddressField,
                         peerLink: AddressField, localLink: AddressField, extended: SwitchField)

  datatype Values = Values(endpoint: string, key: string, mtu: nat, ipv4: AddressField, ipv6: AddressField,
                           peerLink: nat, localLink: nat, extended: bool)

  // Who the peer is and what our side is configured with.
  datatype Context = Context(peerAsn: string, nodeAsn: string, localAsn: string, rules: HostRules)

  datatype InputError = BadEndpoint | BadKey | BadMtu | BadIpv4 | BadIpv6 | BadTunnelAddress | NoAddress | BadAsn | NoLocalAddress | BadSwitch

  // ----- single fields -----

  // Splits at the last occurrence of a character; the index of that character, or the length.
  function LastIndex(s: string, c: char): (k: nat)
    ensures k <= |s| && (k < |s| ==> s[k] == c)
    ensures forall i :: k < i < |s| ==> s[i] != c
    ensures k == |s| ==> c !in s
  {
    if s == "" then 0
    else if s[|s| - 1] == c then |s| - 1
    else
      var front := LastIndex(s[..|s| - 1], c);
      if front == |s| - 1 then |s| else front
  }

  predicate ValidPort(port: string) {
    AllDigits(port) && 1 <= ValueIn(port, Ten) <= 65535
  }

  predicate ValidHost(host: string, rules: HostRules) {
    if host != "" && host[0] == '[' && host[|host| - 1] == ']' then |host| >= 2 && rules.ipv6(host[1..|host| - 1])
    else ':' !in host && (rules.ip(host) || rules.hostname(host))
  }

  predicate ValidEndpoint(value: string, rules: HostRules) {
    && |value| <= 255
    && (forall i :: 0 <= i < |value| ==> 33 <= value[i] as nat <= 126)
    && (var k := LastIndex(value, ':');
        k < |value| && k > 0 && ValidPort(value[k + 1..]) && ValidHost(value[..k], rules))
  }

  function NormalizeEndpoint(raw: string, rules: HostRules): Result<string, InputError> {
    var value := Strip(raw);
    if value == "" || ValidEndpoint(value, rules) then Ok(value) else Err(BadEndpoint)
  }

  function NormalizeKey(raw: string): Result<string, InputError> {
    if WireGuardKey(Strip(raw)) then Ok(Strip(raw)) else Err(BadKey)
  }

  function MtuInRange(n: int): (r: Result<nat, InputError>)
    ensures r.Ok? ==> MIN_MTU <= r.value <= MAX_MTU
  {
    if MIN_MTU <= n <= MAX_MTU then Ok(n) else Err(BadMtu)
  }

  function NormalizeMtu(field: MtuField): (r: Result<nat, InputError>)
    ensures r.Ok? ==> MIN_MTU <= r.value <= MAX_MTU
  {
    match field
    case NoMtu => Ok(DEFAULT_MTU)
    case MtuNumber(n) => MtuInRange(n)
    case MtuText(text) =>
      var value := Strip(text);
      if value == "" then Ok(DEFAULT_MTU)
      else if !AllDigits(value) then Err(BadMtu)
      else MtuInRange(ValueIn(value, Ten))
  }

  predicate OnWord(s: string) { s == "1" || s == "true" || s == "yes" || s == "on" || s == "enabled" }

  predicate OffWord(s: string) { s == "0" || s == "false" || s == "no" || s == "off" || s == "disabled" || s == "" }

  function NormalizeSwitch(field: SwitchField): Result<bool, InputError> {
    match field
    case Absent => Ok(false)
    case Switch(on) => Ok(on)
    case SwitchText(text) =>
      var cleaned := Lower(Strip(text));
      if OnWord(cleaned) then Ok(true)
      else if OffWord(cleaned) then Ok(false)
      else Err(BadSwitch)
  }

  function NormalizeIpv4(field: AddressField): Result<AddressField, InputError> {
    if field.Blank? || field.V4? then Ok(field) else Err(BadIpv4)
  }

  function NormalizeIpv6(field: AddressField): Result<AddressField, InputError> {
    if field.Blank? || field.V6? then Ok(field) else Err(BadIpv6)
  }

  function NormalizeTunnel(field: AddressField): (r: Result<nat, InputError>)
    ensures r.Ok? ==> TunnelKind(r.value)
  {
    if field.V6? && TunnelKind(field.value) then Ok(field.value) else Err(BadTunnelAddress)
  }

  // ----- the whole form -----

  // The peer's tunnel address: the one given, else the peer's dn42 IPv6 address if it may serve as
  // one, else fe80::<ASN suffix>.
  function PeerAddress(ctx: Context, ipv6: AddressField, peerLink: AddressField): Result<nat, InputError> {
    if !peerLink.Blank? then NormalizeTunnel(peerLink)
    else if !ipv6.Blank? && NormalizeTunnel(ipv6).Ok? then NormalizeTunnel(ipv6)
    else
      match AsnLinkLocal(ctx.peerAsn)
      case Ok(address) => Ok(address)
      case Err(_) => Err(BadAsn)
  }

  // Our tunnel address: the one given, else derived; checked again either way.
  function LocalAddress(ctx: Context, peer: nat, localLink: AddressField): Result<nat, InputError> {
    if !localLink.Blank? then NormalizeTunnel(localLink)
    else
      match DeriveLocal(EffectiveAsn(ctx.nodeAsn, ctx.localAsn), peer)
      case Err(_) => Err(NoLocalAddress)
      case Ok(address) => NormalizeTunnel(V6(address, ""))
  }

  function Normalize(ctx: Context, input: Input): Result<Values, InputError> {
    var endpoint :- NormalizeEndpoint(input.endpoint, ctx.rules);
    var key :- NormalizeKey(input.key);
    var mtu :- NormalizeMtu(input.mtu);
    var ipv4 :- NormalizeIpv4(input.ipv4);
    var ipv6 :- NormalizeIpv6(input.ipv6);
    if !input.peerLink.Blank? && NormalizeTunnel(input.peerLink).Err? then Err(BadTunnelAddress)
    else if ipv4.Blank? && ipv6.Blank? && input.peerLink.Blank? then Err(NoAddress)
    else
      var peer :- PeerAddress(ctx, ipv6, input.peerLink);
      var local :- LocalAddress(ctx, peer, input.localLink);
      var extended :- NormalizeSwitch(input.extended);
      Ok(Values(endpoint, key, mtu, ipv4, ipv6, peer, local, extended))
  }

  // What the confirmation page submits for the values it shows: everything as text, and no address
  // of ours.
  function Confirm(v: Values): Input {
    Input(v.endpoint, v.key, MtuText(Decimal(v.mtu)), v.ipv4, v.ipv6, V6(v.peerLink, ""), Blank,
          SwitchText(if v.extended then "1" else "0"))
  }

  // ----- fixpoints -----

  // Which MTU a field is accepted as: the default for none, else the number written.
  lemma MtuAccepted(field: MtuField, n: nat)
    ensures NormalizeMtu(field) == Ok(n) <==> MIN_MTU <= n <= MAX_MTU && MtuRead(field, n)
  {
    hide Strip, AllDigits, ValueIn;
    AllDigitsNotEmpty("");
  }

  predicate MtuRead(field: MtuField, n: nat) {
    match field
    case NoMtu => n == DEFAULT_MTU
    case MtuNumber(k) => k == n
    case MtuText(text) =>
      if Strip(text) == "" then n == DEFAULT_MTU else AllDigits(Strip(text)) && ValueIn(Strip(text), Ten) == n
  }

  lemma AllDigitsNotEmpty(text: string)
    ensures AllDigits(text) ==> text != ""
  {
  }

  lemma EndpointFixpoint(raw: string, rules: HostRules)
    requires NormalizeEndpoint(raw, rules).Ok?
    ensures NormalizeEndpoint(NormalizeEndpoint(raw, rules).value, rules) == NormalizeEndpoint(raw, rules)
  {
    StripTrims(raw);
    StripKeepsTrimmed(Strip(raw));
  }

  lemma KeyFixpoint(raw: string)
    requires NormalizeKey(raw).Ok?
    ensures NormalizeKey(NormalizeKey(raw).value) == NormalizeKey(raw)
  {
    StripTrims(raw);
    StripKeepsTrimmed(Strip(raw));
  }

  lemma MtuFixpoint(mtu: nat)
    requires MIN_MTU <= mtu <= MAX_MTU
    ensures NormalizeMtu(MtuText(Decimal(mtu))) == Ok(mtu)
  {
    var text := Decimal(mtu);
    assert IsDigit(text[0]) && IsDigit(text[|text| - 1]);
    StripKeepsTrimmed(text);
    DecimalReadBack(mtu);
  }

  lemma DigitStripped(text: string)
    requires |text| == 1 && IsDigit(text[0])
    ensures Strip(text) == text
  {
    StripKeepsTrimmed(text);
  }

  lemma DigitLowered(text: string)
    requires |text| == 1 && IsDigit(text[0])
    ensures Lower(text) == text
  {
    assert Lower(text)[0] == text[0];
  }

  lemma SwitchWords()
    ensures OnWord("1") && !OnWord("0") && OffWord("0")
  {
    assert "0"[0] != "1"[0] && |"0"| == 1;
  }

  lemma SwitchFixpoint(on: bool)
    ensures NormalizeSwitch(SwitchText(if on then "1" else "0")) == Ok(on)
  {
    hide OnWord, OffWord, Lower, Strip;
    DigitStripped("1");
    DigitStripped("0");
    DigitLowered("1");
    DigitLowered("0");
    SwitchWords();
  }

  // Confirming a preview creates exactly what was previewed.
  lemma ConfirmKeepsPreview(ctx: Context, input: Input, v: Values)
    requires input.localLink.Blank? && Normalize(ctx, input) == Ok(v)
    ensures Normalize(ctx, Confirm(v)) == Ok(v)
  {
    hide NormalizeEndpoint, NormalizeKey, NormalizeMtu, NormalizeSwitch, LocalAddress, AsnLinkLocal, LinkLocal, Ula;
    EndpointFixpoint(input.endpoint, ctx.rules);
    KeyFixpoint(input.key);
    MtuFixpoint(v.mtu);
    SwitchFixpoint(v.extended);
    PeerAddressKind(ctx, v.ipv6, input.peerLink);
  }

  lemma PeerAddressKind(ctx: Context, ipv6: AddressField, peerLink: AddressField)
    requires PeerAddress(ctx, ipv6, peerLink).Ok?
    ensures TunnelKind(PeerAddress(ctx, ipv6, peerLink).value)
  {
    if AsnLinkLocal(ctx.peerAsn).Ok? {
      LinkLocalDerived(ctx.peerAsn);
    }
  }

  // With our address derived and an ASN suffix of at most sixteen digits, the check of our derived
  // address never rejects it.
  lemma DerivedNeverRejected(ctx: Context, peer: nat)
    requires TunnelKind(peer)
    requires var ours := EffectiveAsn(ctx.nodeAsn, ctx.localAsn);
      AsnSuffix(ours).Ok? && |AsnSuffix(ours).value| <= 16
    ensures LocalAddress(ctx, peer, Blank).Err?
       <==> DeriveLocal(EffectiveAsn(ctx.nodeAsn, ctx.localAsn), peer).Err?
    ensures LocalAddress(ctx, peer, Blank) != Err(BadTunnelAddress)
  {
    var ours := EffectiveAsn(ctx.nodeAsn, ctx.localAsn);
    if DeriveLocal(ours, peer).Ok? {
      DerivedMatchesPeer(ours, peer);
    }
  }

  // An accepted form whose local address was derived has two tunnel addresses of one kind; two
  // ULAs share the peer's /64.
  lemma AcceptedAddressesMatch(ctx: Context, input: Input, v: Values)
    requires input.localLink.Blank? && Normalize(ctx, input) == Ok(v)
    requires var suffix := AsnSuffix(EffectiveAsn(ctx.nodeAsn, ctx.localAsn));
      suffix.Ok? ==> |suffix.value| <= 16
    ensures SameKind(v.localLink, v.peerLink) && (Ula(v.peerLink) ==> v.localLink / TWO_64 == v.peerLink / TWO_64)
  {
    hide NormalizeEndpoint, NormalizeKey, NormalizeMtu, NormalizeSwitch, AsnLinkLocal, PeerAddress, DeriveLocal, AsnSuffix, EffectiveAsn, LinkLocal;
    var ours := EffectiveAsn(ctx.nodeAsn, ctx.localAsn);
    PeerAddressKind(ctx, v.ipv6, input.peerLink);
    assert DeriveLocal(ours, v.peerLink) == Ok(v.localLink);
    DerivedMatchesPeer(ours, v.peerLink);
    KindsDisjoint(v.peerLink);
  }

  // ----- what an accepted form comes to -----

  // No endpoint, or a host and a port.
  ghost predicate EndpointOk(text: string, rules: HostRules) {
    text == "" ||
    (&& |text| <= 255 && (forall i :: 0 <= i < |text| ==> 33 <= text[i] as nat <= 126)
     && exists host, port :: HostAndPort(text, host, port, rules))
  }

  ghost predicate HostAndPort(text: string, host: string, port: string, rules: HostRules) {
    text == host + ":" + port && ':' !in port && host != "" && ValidPort(port) && HostOk(host, rules)
  }

  // An IPv6 address in brackets; or something else without a colon, an address or a host name.
  ghost predicate HostOk(host: string, rules: HostRules) {
    || (exists inner :: Bracketed(host, inner) && rules.ipv6(inner))
    || (!(exists inner :: Bracketed(host, inner)) && ':' !in host && (rules.ip(host) || rules.hostname(host)))
  }

  ghost predicate Bracketed(host: string, inner: string) {
    host == "[" + inner + "]"
  }

  lemma HostAccepted(host: string, rules: HostRules)
    ensures ValidHost(host, rules) <==> HostOk(host, rules)
  {
    var brackets := host != "" && host[0] == '[' && host[|host| - 1] == ']';
    if brackets {
      assert Bracketed(host, host[1..|host| - 1]);
    }
    forall inner | Bracketed(host, inner)
      ensures brackets && inner == host[1..|host| - 1]
    {
      assert |host| == |inner| + 2 && host[|host| - 1] == ']';
    }
  }

  lemma OnlyLast(text: string, c: char, k: nat)
    requires k < |text| && text[k] == c && c !in text[k + 1..]
    ensures LastIndex(text, c) == k
  {
    hide LastIndex;
    assert text[k] in text;
    assert forall j :: k < j < |text| ==> text[j] == text[k + 1..][j - k - 1];
  }

  lemma LastIndexOf(text: string, host: string, port: string)
    requires text == host + ":" + port && ':' !in port
    ensures LastIndex(text, ':') == |host| && text[..|host|] == host && text[|host| + 1..] == port
  {
    hide LastIndex;
    assert text[|host|] == ':';
    assert text[|host| + 1..] == port;
    OnlyLast(text, ':', |host|);
  }

  // An endpoint is accepted exactly as its stripped text, if that is empty or a host and a port.
  lemma EndpointAccepted(raw: string, rules: HostRules, text: string)
    ensures NormalizeEndpoint(raw, rules) == Ok(text) <==> text == Strip(raw) && EndpointOk(text, rules)
  {
    hide Strip, ValidPort, ValidHost, LastIndex;
    if text == Strip(raw) && text != "" {
      EndpointSplits(text, rules);
    }
  }

  lemma EndpointSplits(text: string, rules: HostRules)
    requires text != ""
    ensures ValidEndpoint(text, rules) <==> EndpointOk(text, rules)
  {
    hide ValidPort, ValidHost, HostOk;
    var k := LastIndex(text, ':');
    if ValidEndpoint(text, rules) {
      HostAccepted(text[..k], rules);
      assert text == text[..k] + ":" + text[k + 1..];
      assert HostAndPort(text, text[..k], text[k + 1..], rules);
    }
    if EndpointOk(text, rules) {
      var host, port :| HostAndPort(text, host, port, rules);
      LastIndexOf(text, host, port);
      HostAccepted(host, rules);
    }
  }

  // The address given; else the peer's dn42 IPv6 address if BGP may run over it; else the ASN's.
  ghost predicate PeerLinkRead(peerAsn: string, input: Input, address: nat) {
    if !input.peerLink.Blank? then input.peerLink.V6? && address == input.peerLink.value
    else if input.ipv6.V6? && TunnelKind(input.ipv6.value) then address == input.ipv6.value
    else AsnLinkLocal(peerAsn) == Ok(address)
  }

  // The address given; else the one derived from the node's own ASN, or ours if it has none.
  ghost predicate LocalLinkRead(ctx: Context, peer: nat, field: AddressField, address: nat) {
    if !field.Blank? then field.V6? && address == field.value
    else DeriveLocal(if Strip(ctx.nodeAsn) != "" then Strip(ctx.nodeAsn) else Strip(ctx.localAsn), peer) == Ok(address)
  }

  // The text is this word of small letters, written in letters of either case.
  ghost predicate Spells(s: string, word: string) {
    |s| == |word| && forall i :: 0 <= i < |s| ==> s[i] == word[i] || ('a' <= word[i] <= 'z' && s[i] == word[i] - 'a' + 'A')
  }

  ghost predicate SwitchRead(field: SwitchField, on: bool) {
    match field
    case Absent => !on
    case Switch(b) => on == b
    case SwitchText(text) => exists word :: Spells(Strip(text), word) && if on then OnWord(word) else OffWord(word)
  }

  // The values say what the form says, field by field.
  ghost predicate FollowsForm(ctx: Context, input: Input, v: Values) {
    && v.endpoint == Strip(input.endpoint) && v.key == Strip(input.key) && MtuRead(input.mtu, v.mtu)
    && v.ipv4 == input.ipv4 && v.ipv6 == input.ipv6
    && PeerLinkRead(ctx.peerAsn, input, v.peerLink) && LocalLinkRead(ctx, v.peerLink, input.localLink, v.localLink)
    && SwitchRead(input.extended, v.extended)
  }

  // They are values a peer may have.
  ghost predicate Acceptable(ctx: Context, v: Values) {
    && EndpointOk(v.endpoint, ctx.rules) && WireGuardKey(v.key) && MIN_MTU <= v.mtu <= MAX_MTU
    && (v.ipv4.Blank? || v.ipv4.V4?) && (v.ipv6.Blank? || v.ipv6.V6?)
    && TunnelKind(v.peerLink) && TunnelKind(v.localLink)
  }

  lemma WordsApart(word: string)
    ensures !(OnWord(word) && OffWord(word))
  {
    if OnWord(word) {
      assert word[0] == '1' || word[0] == 't' || word[0] == 'y' || word[0] == 'e' || (word[0] == 'o' && |word| == 2);
    }
    if OffWord(word) {
      assert word == "" || word[0] == '0' || word[0] == 'f' || word[0] == 'n' || word[0] == 'd' || (word[0] == 'o' && |word| == 3);
    }
  }

  predicate NoCapitals(s: string) { forall i :: 0 <= i < |s| ==> !('A' <= s[i] <= 'Z') }

  lemma WordsAreSmall(word: string)
    requires OnWord(word) || OffWord(word)
    ensures NoCapitals(word)
  {
    assert NoCapitals("1") && NoCapitals("true") && NoCapitals("yes") && NoCapitals("on") && NoCapitals("enabled");
    assert NoCapitals("0") && NoCapitals("false") && NoCapitals("no") && NoCapitals("off") && NoCapitals("disabled") && NoCapitals("");
    hide NoCapitals;
  }

  lemma SpellsLower(s: string, word: string)
    requires NoCapitals(word)
    ensures Spells(s, word) <==> Lower(s) == word
  {
    if |s| == |word| {
      assert forall i :: 0 <= i < |s| ==> Lower(s)[i] == LowerChar(s[i]);
    }
  }

  lemma LowerSmall(s: string)
    ensures NoCapitals(Lower(s))
  {
  }

  lemma SpelledAs(s: string)
    ensures OnWord(Lower(s)) <==> exists word :: Spells(s, word) && OnWord(word)
    ensures OffWord(Lower(s)) <==> exists word :: Spells(s, word) && OffWord(word)
  {
    hide OnWord, OffWord, Lower, Spells, NoCapitals;
    LowerSmall(s);
    SpellsLower(s, Lower(s));
    forall word | Spells(s, word) && (OnWord(word) || OffWord(word))
      ensures word == Lower(s)
    {
      WordsAreSmall(word);
      SpellsLower(s, word);
    }
  }

  // A switch is read as a word for on or off, in letters of either case, and nothing else is.
  lemma SwitchAccepted(field: SwitchField, on: bool)
    ensures NormalizeSwitch(field) == Ok(on) <==> SwitchRead(field, on)
  {
    hide OnWord, OffWord, Lower, Strip, Spells;
    if field.SwitchText? {
      WordsApart(Lower(Strip(field.text)));
      SpelledAs(Strip(field.text));
    }
  }

  lemma PeerAccepted(ctx: Context, input: Input, address: nat)
    requires input.ipv6.Blank? || input.ipv6.V6?
    ensures PeerAddress(ctx, input.ipv6, input.peerLink) == Ok(address)
       <==> PeerLinkRead(ctx.peerAsn, input, address) && TunnelKind(address)
    ensures PeerLinkRead(ctx.peerAsn, input, address) && TunnelKind(address) && !input.peerLink.Blank? ==> NormalizeTunnel(input.peerLink).Ok?
  {
    hide LinkLocal, Ula, AsnLinkLocal;
    if AsnLinkLocal(ctx.peerAsn).Ok? {
      LinkLocalDerived(ctx.peerAsn);
    }
  }

  lemma LocalAccepted(ctx: Context, peer: nat, field: AddressField, address: nat)
    ensures LocalAddress(ctx, peer, field) == Ok(address) <==> LocalLinkRead(ctx, peer, field, address) && TunnelKind(address)
  {
    hide LinkLocal, Ula, DeriveLocal, Strip;
  }

  lemma KeyAccepted(raw: string, key: string)
    ensures NormalizeKey(raw) == Ok(key) <==> key == Strip(raw) && WireGuardKey(key)
  {
    hide Strip, WireGuardKey;
  }

  lemma AddressesAccepted(input: Input, ipv4: AddressField, ipv6: AddressField)
    ensures NormalizeIpv4(input.ipv4) == Ok(ipv4) <==> ipv4 == input.ipv4 && (ipv4.Blank? || ipv4.V4?)
    ensures NormalizeIpv6(input.ipv6) == Ok(ipv6) <==> ipv6 == input.ipv6 && (ipv6.Blank? || ipv6.V6?)
  {
  }

  lemma NormalizeFields(ctx: Context, input: Input, v: Values)
    ensures Normalize(ctx, input) == Ok(v)
       <==> (&& NormalizeEndpoint(input.endpoint, ctx.rules) == Ok(v.endpoint) && NormalizeKey(input.key) == Ok(v.key)
             && NormalizeMtu(input.mtu) == Ok(v.mtu) && NormalizeIpv4(input.ipv4) == Ok(v.ipv4) && NormalizeIpv6(input.ipv6) == Ok(v.ipv6)
             && (!input.peerLink.Blank? ==> NormalizeTunnel(input.peerLink).Ok?)
             && !(v.ipv4.Blank? && v.ipv6.Blank? && input.peerLink.Blank?)
             && PeerAddress(ctx, v.ipv6, input.peerLink) == Ok(v.peerLink)
             && LocalAddress(ctx, v.peerLink, input.localLink) == Ok(v.localLink)
             && NormalizeSwitch(input.extended) == Ok(v.extended))
  {
    hide NormalizeEndpoint, NormalizeKey, NormalizeMtu, NormalizeSwitch, PeerAddress, LocalAddress, NormalizeTunnel, NormalizeIpv4, NormalizeIpv6;
  }

  // A form is accepted with these values exactly when they follow it, may be had, and some address
  // of the peer is given.
  lemma FormAccepted(ctx: Context, input: Input, v: Values)
    ensures Normalize(ctx, input) == Ok(v)
       <==> FollowsForm(ctx, input, v) && Acceptable(ctx, v) && !(input.ipv4.Blank? && input.ipv6.Blank? && input.peerLink.Blank?)
  {
    EndpointAccepted(input.endpoint, ctx.rules, v.endpoint);
    KeyAccepted(input.key, v.key);
    MtuAccepted(input.mtu, v.mtu);
    LocalAccepted(ctx, v.peerLink, input.localLink, v.localLink);
    SwitchAccepted(input.extended, v.extended);
    if input.ipv6.Blank? || input.ipv6.V6? {
      PeerAccepted(ctx, input, v.peerLink);
    }
    AddressesAccepted(input, v.ipv4, v.ipv6);
    NormalizeFields(ctx, input, v);
    hide Normalize, NormalizeEndpoint, NormalizeKey, NormalizeMtu, NormalizeSwitch, NormalizeIpv4, NormalizeIpv6, NormalizeTunnel, PeerAddress,
      LocalAddress, Strip, EndpointOk, WireGuardKey, MtuRead, PeerLinkRead, LocalLinkRead, SwitchRead, TunnelKind;
  }
}

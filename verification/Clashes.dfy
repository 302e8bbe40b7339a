/**
Two peers of one node that get in each other's way, in runs the service accepts: nothing keeps ports
or names apart outside the dn42 block.
*/
module Clashes {
  import opened Text
  import opened PeerNames
  import opened PeerInput
  import opened TunnelAddress
  import opened Runner
  import opened Lifecycle
  import opened PeerState
  import opened DeployedRows

  function Letters(n: nat): (r: string)
    ensures |r| == n && forall k :: 0 <= k < n ==> r[k] == 'A'
  {
    if n == 0 then "" else Letters(n - 1) + "A"
  }

  // A well-formed key.
  function Key(): string { Letters(43) + "=" }

  // A form any peer may submit: a key and two link-local addresses.
  function Form(): Input { Input("", Key(), NoMtu, Blank, Blank, V6(FE80 + 1, ""), V6(FE80 + 2, ""), Absent) }

  function Accepted(): Values { Values("", Key(), DEFAULT_MTU, Blank, Blank, FE80 + 1, FE80 + 2, false) }

  const ROUTER := Node("router", "4242420000", true)

  lemma SampleKey()
    ensures NormalizeKey(Key()) == Ok(Key())
  {
    hide Letters;
    assert Key()[0] == 'A' && Key()[43] == '=' && |Key()| == 44;
    StripKeepsTrimmed(Key());
  }

  lemma SampleAddresses()
    ensures LinkLocal(FE80 + 1) && LinkLocal(FE80 + 2)
  {
  }

  lemma NoEndpoint(rules: HostRules)
    ensures NormalizeEndpoint("", rules) == Ok("")
  {
    StripKeepsTrimmed("");
    hide Strip, ValidEndpoint;
  }

  lemma GivenAddresses(ctx: Context, link: nat)
    requires LinkLocal(link)
    ensures NormalizeTunnel(V6(link, "")) == Ok(link)
    ensures PeerAddress(ctx, Blank, V6(link, "")) == Ok(link) && LocalAddress(ctx, link, V6(link, "")) == Ok(link)
    ensures forall peer :: LocalAddress(ctx, peer, V6(link, "")) == Ok(link)
  {
    hide LinkLocal, Ula, AsnLinkLocal, DeriveLocal;
  }

  lemma PlainFields()
    ensures NormalizeMtu(NoMtu) == Ok(DEFAULT_MTU) && NormalizeSwitch(Absent) == Ok(false)
    ensures NormalizeIpv4(Blank) == Ok(Blank) && NormalizeIpv6(Blank) == Ok(Blank)
  {
  }

  lemma SampleForm(ctx: Context)
    ensures Normalize(ctx, Form()) == Ok(Accepted())
  {
    NoEndpoint(ctx.rules);
    SampleKey();
    SampleAddresses();
    GivenAddresses(ctx, FE80 + 1);
    GivenAddresses(ctx, FE80 + 2);
    PlainFields();
    NormalizeFields(ctx, Form(), Accepted());
    hide Key, Normalize, NormalizeKey, NormalizeEndpoint, NormalizeMtu, NormalizeSwitch, NormalizeIpv4, NormalizeIpv6, NormalizeTunnel, PeerAddress, LocalAddress, LinkLocal;
  }

  function Ops(i: string, a: string, j: string, b: string, first: Call<DeployLuck>, second: Call<DeployLuck>): seq<Op> {
    [Op.AddNode(0, ROUTER), Op.Create(i, a, 0, Form(), first, 0), Op.Create(j, b, 0, Form(), second, 0)]
  }

  lemma ExecOne(env: Env, ops: seq<Op>, op: Op, s: State)
    requires Exec(env, ops) == Reached(s) && Enabled(s, op)
    ensures Exec(env, ops + [op]) == Reached(Step(env, s, op))
  {
    assert (ops + [op])[..|ops|] == ops;
    hide Enabled, Step;
  }

  lemma CreateAccepted(env: Env, s: State, id: string, asn: string, n: NodeId, call: Call<DeployLuck>)
    requires id != "" && id !in s.rows && n in s.nodes && !Taken(s, n, asn)
    ensures var s' := Step(env, s, Op.Create(id, asn, n, Form(), call, 0));
      && s'.nodes == s.nodes && s'.rows.Keys == s.rows.Keys + {id}
      && (forall j :: j in s.rows ==> s'.rows[j] == s.rows[j])
      && s'.rows[id].asn == asn && s'.rows[id].node == n
  {
    CreateAddsRow(env, s, id, asn, n, Form(), call, 0);
    SampleForm(Context(asn, s.nodes[n].asn, env.localAsn, env.rules));
    hide Normalize, DeployRow, Taken;
  }

  // Any two peers with different ASNs may share a node, however their deployments end.
  lemma TwoPeers(env: Env, i: string, a: string, j: string, b: string, first: Call<DeployLuck>, second: Call<DeployLuck>) returns (s: State)
    requires i != "" && j != "" && i != j && a != b
    ensures Exec(env, Ops(i, a, j, b, first, second)) == Reached(s)
    ensures i in s.rows && j in s.rows && s.rows[i].node == s.rows[j].node && s.rows[i].asn == a && s.rows[j].asn == b
  {
    hide CreatePeer, DeployRow;
    var s0, add, one, two := EMPTY, Op.AddNode(0, ROUTER), Op.Create(i, a, 0, Form(), first, 0), Op.Create(j, b, 0, Form(), second, 0);
    assert Exec(env, []) == Reached(s0);
    ExecOne(env, [], add, s0);
    var s1 := Step(env, s0, add);
    ExecOne(env, [] + [add], one, s1);
    CreateAccepted(env, s1, i, a, 0, first);
    var s2 := Step(env, s1, one);
    hide Exec;
    ExecOne(env, [] + [add] + [one], two, s2);
    CreateAccepted(env, s2, j, b, 0, second);
    s := Step(env, s2, two);
    assert Ops(i, a, j, b, first, second) == [] + [add] + [one] + [two];
  }

  lemma Value20090()
    ensures AllDigits("20090") && ValueIn("20090", Ten) == 20090
  {
    ValueSnoc("", '2');
    ValueSnoc("2", '0');
    ValueSnoc("20", '0');
    ValueSnoc("200", '9');
    ValueSnoc("2009", '0');
    hide ValueIn;
    assert "" + ['2'] == "2" && "2" + ['0'] == "20" && "20" + ['0'] == "200" && "200" + ['9'] == "2009" && "2009" + ['0'] == "20090";
  }

  lemma EndsIn20090(asn: string)
    requires AllDigits(asn) && |asn| >= 5 && asn[|asn| - 5..] == "20090"
    ensures ListenPort(asn) == Ok(20090)
  {
    DigitsStandAlone(asn);
    Value20090();
    hide ValueIn, NormalizeAsn, AllDigits;
  }

  const INSIDE := "4242420090"
  const OUTSIDE := "4242120090"

  // AS4242420090 and AS4242120090 listen on one port of one node.
  lemma TwoPeersOnePort(env: Env, i: string, j: string, first: Call<DeployLuck>, second: Call<DeployLuck>) returns (s: State)
    requires i != "" && j != "" && i != j
    ensures Exec(env, Ops(i, INSIDE, j, OUTSIDE, first, second)) == Reached(s)
    ensures i in s.rows && j in s.rows && s.rows[i].node == s.rows[j].node
    ensures ListenPort(s.rows[i].asn) == ListenPort(s.rows[j].asn) == Ok(20090)
  {
    hide Exec, ListenPort, Ops;
    assert INSIDE[3] == '2' && OUTSIDE[5] == '2' && INSIDE[4] == '4' && OUTSIDE[4] == '1';
    s := TwoPeers(env, i, INSIDE, j, OUTSIDE, first, second);
    EndsIn20090(INSIDE);
    EndsIn20090(OUTSIDE);
  }

  // AS4242425001 and AS65001 go by one name on one node when their ids end alike, so the assumption
  // of distinct names is not always met.
  lemma TwoPeersOneName(env: Env, i: string, j: string, first: Call<DeployLuck>, second: Call<DeployLuck>) returns (s: State)
    requires i != j && |i| >= 4 && |j| >= 4 && LastChars(i, 4) == LastChars(j, 4)
    ensures Exec(env, Ops(i, "4242425001", j, "65001", first, second)) == Reached(s)
    ensures !NamesDistinct(s)
  {
    hide Exec, Ops, ProtocolName, LastChars;
    assert |"4242425001"| != |"65001"|;
    s := TwoPeers(env, i, "4242425001", j, "65001", first, second);
    NamesClashOutsideBlock(i, j);
    NameDerived("4242425001", i);
    assert Clash(s.rows[i].asn, i, s.rows[j], j);
  }

  lemma NameDerived(asn: string, id: string)
    requires asn == "4242425001"
    ensures ProtocolName(asn, id).Ok?
  {
    TwoAsns();
    DigitsStandAlone(asn);
    hide NormalizeAsn, AllDigits;
  }
}

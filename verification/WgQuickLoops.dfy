/** The wg-quick parser and printer in the program's own form: builders changed in place, a loop over
    lines, a growing output string.  Each is proved equal to its function in WgQuick. */
module WgQuickLoops {
  import opened Wrappers
  import opened Text
  import opened Decimal
  import opened IpAddress
  import opened Base64Key
  import opened Config
  import opened WgQuick

  class InterfaceBuilder {
    var privateKey: Option<Key>
    var listenPort: Port
    var addresses: seq<string>
    var dns: seq<IpAddr>
    var dnsSearch: seq<string>
    var mtu: Port
    var fwmark: Word
    var preUp: seq<string>
    var postUp: seq<string>
    var preDown: seq<string>
    var postDown: seq<string>

    function View(): IfaceDraft
      reads this
    {
      IfaceDraft(privateKey, listenPort, addresses, dns, dnsSearch, mtu, fwmark, preUp, postUp, preDown, postDown)
    }

    constructor ()
      ensures View() == EMPTY_IFACE
    {
      privateKey, listenPort, addresses, dns, dnsSearch := None, 0, [], [], [];
      mtu, fwmark, preUp, postUp, preDown, postDown := 0, 0, [], [], [], [];
    }
  }

  class PeerBuilder {
    var name: string
    var publicKey: Option<Key>
    var presharedKey: Option<Key>
    var endpoint: Option<string>
    var allowedIps: seq<string>
    var persistentKeepalive: Port

    function View(): PeerDraft
      reads this
    {
      PeerDraft(name, publicKey, presharedKey, endpoint, allowedIps, persistentKeepalive)
    }

    constructor ()
      ensures View() == EMPTY_PEER
    {
      name, publicKey, presharedKey, endpoint, allowedIps, persistentKeepalive := "", None, None, None, [], 0;
    }
  }

  function Views(peers: seq<PeerBuilder>): (r: seq<PeerDraft>)
    reads peers
    ensures |r| == |peers| && forall i :: 0 <= i < |peers| ==> r[i] == peers[i].View()
  {
    seq(|peers|, i requires 0 <= i < |peers| reads peers => peers[i].View())
  }

  /** Push every trimmed part of a comma list. */
  method PushParts(into: seq<string>, value: string) returns (r: seq<string>)
    ensures r == into + SplitTrim(value, ',')
  {
    r := into;
    var parts := Split(value, ',');
    for k := 0 to |parts|
      invariant r == into + SplitTrim(value, ',')[..k]
    {
      r := r + [Trim(parts[k])];
    }
  }

  method ParseDnsTokens(iface: InterfaceBuilder, value: string)
    modifies iface
    ensures iface.View() == AddDnsTokens(old(iface.View()), SplitTrim(value, ','))
  {
    var parts := Split(value, ',');
    ghost var tokens := SplitTrim(value, ',');
    for k := 0 to |parts|
      invariant AddDnsTokens(iface.View(), tokens[k..]) == AddDnsTokens(old(iface.View()), tokens)
    {
      var token := Trim(parts[k]);
      assert tokens[k..][0] == token && tokens[k..][1..] == tokens[k + 1..];
      if token == "" {
        continue;
      }
      match ParseIp(token) {
        case Some(ip) => iface.dns := iface.dns + [ip];
        case None => iface.dnsSearch := iface.dnsSearch + [token];
      }
    }
  }

  method ParseInterfaceKv(iface: InterfaceBuilder, key: string, value: string) returns (r: Result<(), ParseReason>)
    modifies iface
    ensures match InterfaceKv(old(iface.View()), key, value)
            case Ok(i) => r == Ok(()) && iface.View() == i
            case Err(e) => r == Err(e) && iface.View() == old(iface.View())
  {
    r := Ok(());
    match Lower(key) {
      case "privatekey" =>
        match FromBase64(value) {
          case Some(k) => iface.privateKey := Some(k);
          case None => r := Err(BadValue("PrivateKey"));
        }
      case "listenport" =>
        match ParseUInt(value, U16_MAX) {
          case Some(n) => iface.listenPort := n;
          case None => r := Err(BadValue("ListenPort"));
        }
      case "address" => iface.addresses := PushParts(iface.addresses, value);
      case "dns" => ParseDnsTokens(iface, value);
      case "mtu" =>
        match ParseUInt(value, U16_MAX) {
          case Some(n) => iface.mtu := n;
          case None => r := Err(BadValue("MTU"));
        }
      case "fwmark" =>
        match ParseUInt(value, U32_MAX) {
          case Some(n) => iface.fwmark := n;
          case None => r := Err(BadValue("FwMark"));
        }
      case "preup" => iface.preUp := iface.preUp + [value];
      case "postup" => iface.postUp := iface.postUp + [value];
      case "predown" => iface.preDown := iface.preDown + [value];
      case "postdown" => iface.postDown := iface.postDown + [value];
      case _ => r := Err(UnknownInterfaceKey(key));
    }
  }

  method ParsePeerKv(peer: PeerBuilder, key: string, value: string) returns (r: Result<(), ParseReason>)
    modifies peer
    ensures match PeerKv(old(peer.View()), key, value)
            case Ok(p) => r == Ok(()) && peer.View() == p
            case Err(e) => r == Err(e) && peer.View() == old(peer.View())
  {
    r := Ok(());
    match Lower(key) {
      case "publickey" =>
        match FromBase64(value) {
          case Some(k) => peer.publicKey := Some(k);
          case None => r := Err(BadValue("PublicKey"));
        }
      case "presharedkey" =>
        match FromBase64(value) {
          case Some(k) => peer.presharedKey := Some(k);
          case None => r := Err(BadValue("PresharedKey"));
        }
      case "endpoint" => peer.endpoint := Some(value);
      case "allowedips" => peer.allowedIps := PushParts(peer.allowedIps, value);
      case "persistentkeepalive" =>
        match ParseUInt(value, U16_MAX) {
          case Some(n) => peer.persistentKeepalive := n;
          case None => r := Err(BadValue("PersistentKeepalive"));
        }
      case _ => r := Err(UnknownPeerKey(key));
    }
  }

  /** The state the loop has built. */
  function StateOf(section: Section, iface: InterfaceBuilder, peers: seq<PeerBuilder>): ParseState
    reads iface, peers
  {
    ParseState(section, iface.View(), Views(peers))
  }

  ghost predicate Distinct(peers: seq<PeerBuilder>) {
    forall i, j :: 0 <= i < j < |peers| ==> peers[i] != peers[j]
  }

  /** One key-value line in the current section; the peer written to is the last one pushed. */
  method ParseKeyValue(section: Section, iface: InterfaceBuilder, peers: seq<PeerBuilder>, line: string)
    returns (r: Result<(), ParseReason>)
    requires Distinct(peers) && (section == Peer ==> peers != [])
    modifies iface, peers
    ensures match KeyValueLine(old(StateOf(section, iface, peers)), line)
            case Ok(st) => r == Ok(()) && StateOf(section, iface, peers) == st
            case Err(e) => r == Err(e)
  {
    match SplitKv(line) {
      case None => return Err(ExpectedKeyValue);
      case Some((key, value)) =>
        match section {
          case NoSection => return Err(OutsideSection);
          case Interface => r := ParseInterfaceKv(iface, key, value);
          case Peer =>
            ghost var was := Views(peers);
            var last := |peers| - 1;
            r := ParsePeerKv(peers[last], key, value);
            assert Views(peers) == was[last := peers[last].View()];
        }
    }
  }

  /** The body of the line loop. */
  method ParseOneLine(section: Section, iface: InterfaceBuilder, peers: seq<PeerBuilder>, raw: string)
    returns (section': Section, peers': seq<PeerBuilder>, r: Result<(), ParseReason>)
    requires Distinct(peers) && (section == Peer ==> peers != [])
    modifies iface, peers
    ensures Distinct(peers') && (section' == Peer ==> peers' != [])
    ensures forall k :: 0 <= k < |peers'| ==> peers'[k] in peers || fresh(peers'[k])
    ensures match ParseLine(old(StateOf(section, iface, peers)), raw)
            case Ok(st) => r == Ok(()) && StateOf(section', iface, peers') == st
            case Err(e) => r == Err(e)
  {
    section', peers', r := section, peers, Ok(());
    hide KeyValueLine, Trim;
    var line := Trim(raw);
    if Skipped(line) {
      return;
    }
    if IsInterfaceHeader(line) {
      section' := Interface;
      return;
    }
    if IsPeerHeader(line) {
      section' := Peer;
      var builder := new PeerBuilder();
      peers' := peers + [builder];
      assert Views(peers') == old(Views(peers)) + [EMPTY_PEER];
      return;
    }
    r := ParseKeyValue(section, iface, peers, line);
  }

  /** `load_from_str`: the line loop, the two build steps and validation. */
  method LoadFromStr(input: string) returns (r: Result<WgConfig, ConfigError>)
    ensures r == Load(input)
  {
    var section := NoSection;
    var iface := new InterfaceBuilder();
    var peers: seq<PeerBuilder> := [];
    var lines := Lines(input);
    hide ParseLine, Lines, Finish;
    for n := 0 to |lines|
      invariant fresh(iface) && (forall k :: 0 <= k < |peers| ==> fresh(peers[k])) && Distinct(peers)
      invariant section == Peer ==> peers != []
      invariant ParseLines(StateOf(section, iface, peers), lines[n..], n) == ParseLines(START, lines, 0)
    {
      assert lines[n..][0] == lines[n] && lines[n..][1..] == lines[n + 1..];
      var outcome;
      section, peers, outcome := ParseOneLine(section, iface, peers, lines[n]);
      if outcome.Err? {
        return Err(WgQuickParse(n + 1, outcome.error));
      }
    }
    return Finish(StateOf(section, iface, peers));
  }

  /** `writeln!` of one `Key = value` line per value; `done` is what has been written after `base`. */
  method WriteKeyed(out: string, key: string, values: seq<string>, ghost base: string, ghost done: seq<string>)
    returns (r: string)
    requires out == base + Unlines(done)
    ensures r == base + Unlines(done + Keyed(key, values))
  {
    r := out;
    ghost var keyed := Keyed(key, values);
    assert done + keyed[..0] == done;
    for n := 0 to |values|
      invariant r == base + Unlines(done + keyed[..n])
    {
      var line := key + " = " + values[n];
      UnlinesSnoc(done + keyed[..n], line);
      assert done + keyed[..n] + [line] == done + keyed[..n + 1];
      r := r + (line + "\n");
    }
    assert keyed[..|values|] == keyed;
  }

  lemma UnlinesSnoc(lines: seq<string>, line: string)
    ensures Unlines(lines + [line]) == Unlines(lines) + (line + "\n")
  {
    UnlinesAppend(lines, [line]);
    assert [line][1..] == [];
  }

  method WriteNumber(out: string, key: string, n: nat, ghost base: string, ghost done: seq<string>)
    returns (r: string)
    requires out == base + Unlines(done)
    ensures r == base + Unlines(done + NumberLine(key, n))
  {
    if n != 0 {
      r := WriteKeyed(out, key, [ShowNat(n)], base, done);
    } else {
      assert done + [] == done;
      r := out;
    }
  }

  method WriteList(out: string, key: string, items: seq<string>, ghost base: string, ghost done: seq<string>)
    returns (r: string)
    requires out == base + Unlines(done)
    ensures r == base + Unlines(done + ListLine(key, items))
  {
    if items != [] {
      r := WriteKeyed(out, key, [Join(items, ", ")], base, done);
    } else {
      assert done + [] == done;
      r := out;
    }
  }

  method WriteOption(out: string, key: string, v: Option<string>, ghost base: string, ghost done: seq<string>)
    returns (r: string)
    requires out == base + Unlines(done)
    ensures r == base + Unlines(done + OptionLine(key, v))
  {
    match v {
      case Some(text) => r := WriteKeyed(out, key, [text], base, done);
      case None =>
        assert done + [] == done;
        r := out;
    }
  }

  method WritePeerHead(out: string, name: string) returns (r: string)
    ensures r == out + Unlines(["", "[Peer]"] + NameLine(name))
  {
    r := out + "\n[Peer]\n";
    UnlinesSnoc([], "");
    UnlinesSnoc([""], "[Peer]");
    assert [] + [""] == [""] && [""] + ["[Peer]"] == ["", "[Peer]"];
    if name != "" {
      r := r + ("# Name = " + name + "\n");
      UnlinesSnoc(["", "[Peer]"], "# Name = " + name);
    } else {
      assert ["", "[Peer]"] + NameLine(name) == ["", "[Peer]"];
    }
  }

  method WritePeer(out: string, peer: PeerConfig) returns (r: string)
    ensures r == out + Unlines(PeerLines(peer))
  {
    r := WritePeerHead(out, peer.name);
    ghost var d := ["", "[Peer]"] + NameLine(peer.name);
    hide Keyed, ToBase64, Unlines, NumberLine, ListLine, OptionLine, NameLine;
    r := WriteKeyed(r, "PublicKey", [ToBase64(peer.publicKey)], out, d);
    ghost var l1 := Keyed("PublicKey", [ToBase64(peer.publicKey)]);
    r := WriteOption(r, "PresharedKey", ShowKey(peer.presharedKey), out, d + l1);
    ghost var l2 := OptionLine("PresharedKey", ShowKey(peer.presharedKey));
    r := WriteOption(r, "Endpoint", peer.endpoint, out, d + l1 + l2);
    ghost var l3 := OptionLine("Endpoint", peer.endpoint);
    r := WriteList(r, "AllowedIPs", peer.allowedIps, out, d + l1 + l2 + l3);
    ghost var l4 := ListLine("AllowedIPs", peer.allowedIps);
    r := WriteNumber(r, "PersistentKeepalive", peer.persistentKeepalive, out, d + l1 + l2 + l3 + l4);
    ghost var l5 := NumberLine("PersistentKeepalive", peer.persistentKeepalive);
    assert d + l1 + l2 + l3 + l4 + l5 == d + (l1 + l2 + l3 + l4 + l5);
  }

  method WriteIface(out: string, i: InterfaceConfig) returns (r: string)
    ensures r == out + Unlines(IfaceLines(i))
  {
    assert out == out + Unlines([]);
    hide Keyed, ToBase64, Unlines, NumberLine, ListLine, ShowIps;
    r := WriteKeyed(out, "PrivateKey", [ToBase64(i.privateKey)], out, []);
    ghost var l1 := Keyed("PrivateKey", [ToBase64(i.privateKey)]);
    assert [] + l1 == l1;
    r := WriteNumber(r, "ListenPort", i.listenPort, out, l1);
    ghost var l2 := l1 + NumberLine("ListenPort", i.listenPort);
    r := WriteKeyed(r, "Address", i.addresses, out, l2);
    ghost var l3 := l2 + Keyed("Address", i.addresses);
    r := WriteList(r, "DNS", ShowIps(i.dns) + i.dnsSearch, out, l3);
    ghost var l4 := l3 + ListLine("DNS", ShowIps(i.dns) + i.dnsSearch);
    r := WriteNumber(r, "MTU", i.mtu, out, l4);
    ghost var l5 := l4 + NumberLine("MTU", i.mtu);
    r := WriteKeyed(r, "PreUp", i.preUp, out, l5);
    r := WriteKeyed(r, "PostUp", i.postUp, out, l5 + Keyed("PreUp", i.preUp));
    ghost var l7 := l5 + Keyed("PreUp", i.preUp) + Keyed("PostUp", i.postUp);
    r := WriteKeyed(r, "PreDown", i.preDown, out, l7);
    r := WriteKeyed(r, "PostDown", i.postDown, out, l7 + Keyed("PreDown", i.preDown));
  }

  lemma {:induction false} AllPeerLinesSnoc(ps: seq<PeerConfig>, p: PeerConfig)
    ensures AllPeerLines(ps + [p]) == AllPeerLines(ps) + PeerLines(p)
  {
    hide PeerLines;
    if ps == [] {
      assert ps + [p] == [p] && [p][1..] == [];
    } else {
      assert (ps + [p])[0] == ps[0] && (ps + [p])[1..] == ps[1..] + [p];
      AllPeerLinesSnoc(ps[1..], p);
      ConcatAssoc(PeerLines(ps[0]), AllPeerLines(ps[1..]), PeerLines(p));
    }
  }

  lemma PeerTextStep(head: seq<string>, ps: seq<PeerConfig>, n: nat)
    requires n < |ps|
    ensures Unlines(head + AllPeerLines(ps[..n + 1])) == Unlines(head + AllPeerLines(ps[..n])) + Unlines(PeerLines(ps[n]))
  {
    assert ps[..n + 1] == ps[..n] + [ps[n]];
    hide Unlines, PeerLines, AllPeerLines;
    AllPeerLinesSnoc(ps[..n], ps[n]);
    ConcatAssoc(head, AllPeerLines(ps[..n]), PeerLines(ps[n]));
    UnlinesAppend(head + AllPeerLines(ps[..n]), PeerLines(ps[n]));
  }

  method WritePeers(out: string, peers: seq<PeerConfig>, ghost head: seq<string>) returns (r: string)
    requires out == Unlines(head)
    ensures r == Unlines(head + AllPeerLines(peers))
  {
    hide Unlines, PeerLines;
    r := out;
    assert head + AllPeerLines(peers[..0]) == head;
    for n := 0 to |peers|
      invariant r == Unlines(head + AllPeerLines(peers[..n]))
    {
      r := WritePeer(r, peers[n]);
      PeerTextStep(head, peers, n);
    }
    assert peers[..|peers|] == peers;
  }

  /** `export_to_string`. */
  method ExportToString(config: WgConfig) returns (out: string)
    ensures out == Export(config)
  {
    out := "[Interface]\n";
    assert out == Unlines(["[Interface]"]) by {
      UnlinesSnoc([], "[Interface]");
      assert [] + ["[Interface]"] == ["[Interface]"];
    }
    hide Unlines, IfaceLines, AllPeerLines;
    out := WriteIface(out, config.iface);
    UnlinesAppend(["[Interface]"], IfaceLines(config.iface));
    out := WritePeers(out, config.peers, ["[Interface]"] + IfaceLines(config.iface));
  }
}

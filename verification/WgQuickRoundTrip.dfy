/** Printing a configuration and parsing it back. */
module WgQuickRoundTrip {
  import opened Wrappers
  import opened Text
  import opened Decimal
  import opened IpAddress
  import opened Base64Key
  import opened Config
  import opened WgQuick

  // ---- Values that survive the text format ----

  /** A whole value: one line, nothing to trim. */
  predicate CleanValue(s: string) {
    Trimmed(s) && Lacks(s, '\n')
  }

  /** An item of a comma list. */
  predicate CleanItem(s: string) {
    Token(s, ',') && Lacks(s, '\n')
  }

  /** A search domain: an item that is not empty and not an address. */
  predicate CleanDomain(s: string) {
    CleanItem(s) && s != "" && ParseIp(s).None?
  }

  predicate CleanLists(addresses: seq<string>, dnsSearch: seq<string>, preUp: seq<string>, postUp: seq<string>,
                       preDown: seq<string>, postDown: seq<string>)
  {
    && (forall s :: s in addresses ==> CleanItem(s))
    && (forall s :: s in dnsSearch ==> CleanDomain(s))
    && (forall s :: s in preUp ==> CleanValue(s))
    && (forall s :: s in postUp ==> CleanValue(s))
    && (forall s :: s in preDown ==> CleanValue(s))
    && (forall s :: s in postDown ==> CleanValue(s))
  }

  predicate CleanIface(i: InterfaceConfig) {
    CleanLists(i.addresses, i.dnsSearch, i.preUp, i.postUp, i.preDown, i.postDown)
  }

  predicate CleanIfaceDraft(i: IfaceDraft) {
    CleanLists(i.addresses, i.dnsSearch, i.preUp, i.postUp, i.preDown, i.postDown)
  }

  predicate CleanPeerFields(endpoint: Option<string>, allowedIps: seq<string>) {
    && (endpoint.Some? ==> CleanValue(endpoint.value))
    && forall s :: s in allowedIps ==> CleanItem(s)
  }

  /** Every string of the configuration survives the text format. */
  predicate Clean(c: WgConfig) {
    CleanIface(c.iface) && forall p :: p in c.peers ==> CleanPeerFields(p.endpoint, p.allowedIps)
  }

  // ---- What the parser produces is clean ----

  predicate CleanState(st: ParseState) {
    && Reachable(st)
    && CleanIfaceDraft(st.iface)
    && (forall p :: p in st.peers ==> CleanPeerFields(p.endpoint, p.allowedIps) && p.name == "")
  }

  lemma ItemsClean(value: string)
    requires CleanValue(value)
    ensures forall t :: t in SplitTrim(value, ',') ==> CleanItem(t)
  {
    SplitTrimTokens(value, ',');
  }

  lemma {:induction false} AddDnsTokensClean(i: IfaceDraft, tokens: seq<string>)
    requires CleanIfaceDraft(i) && forall t :: t in tokens ==> CleanItem(t)
    ensures CleanIfaceDraft(AddDnsTokens(i, tokens))
    decreases |tokens|
  {
    if tokens == [] {
    } else {
      assert tokens[0] in tokens;
      AddDnsTokensClean(AddDnsToken(i, tokens[0]), tokens[1..]);
    }
  }

  /** One more value in any of the lists that take values as they are. */
  lemma CleanListsGrow(i: IfaceDraft, value: string, items: seq<string>)
    requires CleanIfaceDraft(i) && CleanValue(value) && forall t :: t in items ==> CleanItem(t)
    ensures CleanLists(i.addresses + items, i.dnsSearch, i.preUp, i.postUp, i.preDown, i.postDown)
    ensures CleanLists(i.addresses, i.dnsSearch, i.preUp + [value], i.postUp, i.preDown, i.postDown)
    ensures CleanLists(i.addresses, i.dnsSearch, i.preUp, i.postUp + [value], i.preDown, i.postDown)
    ensures CleanLists(i.addresses, i.dnsSearch, i.preUp, i.postUp, i.preDown + [value], i.postDown)
    ensures CleanLists(i.addresses, i.dnsSearch, i.preUp, i.postUp, i.preDown, i.postDown + [value])
  {
    hide CleanValue, CleanItem, CleanDomain;
  }

  lemma InterfaceKvClean(i: IfaceDraft, key: string, value: string)
    requires CleanIfaceDraft(i) && CleanValue(value) && InterfaceKv(i, key, value).Ok?
    ensures CleanIfaceDraft(InterfaceKv(i, key, value).value)
  {
    hide CleanLists, FromBase64, ParseUInt, SplitTrim, AddDnsTokens, CleanItem, CleanDomain, CleanValue;
    ItemsClean(value);
    AddDnsTokensClean(i, SplitTrim(value, ','));
    CleanListsGrow(i, value, SplitTrim(value, ','));
  }

  lemma PeerKvClean(p: PeerDraft, key: string, value: string)
    requires CleanPeerFields(p.endpoint, p.allowedIps) && CleanValue(value) && PeerKv(p, key, value).Ok?
    ensures var q := PeerKv(p, key, value).value; CleanPeerFields(q.endpoint, q.allowedIps) && q.name == p.name
  {
    ItemsClean(value);
    hide FromBase64, ParseUInt, SplitTrim, CleanItem, CleanValue;
  }

  lemma ValueClean(line: string)
    requires Lacks(line, '\n') && SplitKv(line).Some?
    ensures CleanValue(SplitKv(line).value.1)
  {
    hide Trim;
    TrimSlice(line[First(line, '=') + 1..]);
    assert Lacks(line[First(line, '=') + 1..], '\n');
  }

  lemma KeyValueLineClean(st: ParseState, line: string)
    requires CleanState(st) && Lacks(line, '\n') && KeyValueLine(st, line).Ok?
    ensures CleanState(KeyValueLine(st, line).value)
  {
    ValueClean(line);
    hide SplitKv, InterfaceKv, PeerKv, CleanValue, CleanLists, Lacks;
    var (key, value) := SplitKv(line).value;
    if st.section == Interface {
      InterfaceKvClean(st.iface, key, value);
    } else {
      var last := st.peers[|st.peers| - 1];
      assert last in st.peers;
      PeerKvClean(last, key, value);
    }
  }

  lemma ParseLineClean(st: ParseState, raw: string)
    requires CleanState(st) && Lacks(raw, '\n') && ParseLine(st, raw).Ok?
    ensures CleanState(ParseLine(st, raw).value)
  {
    TrimSlice(raw);
    hide Trim, Skipped, IsInterfaceHeader, IsPeerHeader, KeyValueLine, Lacks, CleanLists;
    var line := Trim(raw);
    if !Skipped(line) && !IsInterfaceHeader(line) && !IsPeerHeader(line) {
      hide CleanState;
      KeyValueLineClean(st, line);
    }
  }

  lemma {:induction false} ParseLinesClean(st: ParseState, lines: seq<string>, done: nat)
    requires CleanState(st) && (forall l :: l in lines ==> Lacks(l, '\n')) && ParseLines(st, lines, done).Ok?
    ensures CleanState(ParseLines(st, lines, done).value)
    decreases |lines|
  {
    if lines == [] {
    } else {
      assert lines[0] in lines;
      ParseLineClean(st, lines[0]);
      ParseLinesClean(ParseLine(st, lines[0]).value, lines[1..], done + 1);
    }
  }

  /** Whatever `load_from_str` accepts is clean, valid, and names no peer. */
  lemma LoadedIsClean(text: string)
    requires Load(text).Ok?
    ensures Clean(Load(text).value) && Validate(Load(text).value).Ok?
    ensures forall p :: p in Load(text).value.peers ==> p.name == ""
  {
    LinesAreSingle(text);
    ParseLinesClean(START, Lines(text), 0);
    var st := ParseLines(START, Lines(text), 0).value;
    var c := Load(text).value;
    forall p | p in c.peers
      ensures CleanPeerFields(p.endpoint, p.allowedIps) && p.name == ""
    {
      var k :| 0 <= k < |c.peers| && c.peers[k] == p;
      assert st.peers[k] in st.peers && BuildPeer(st.peers[k]) == Ok(p);
    }
  }

  // ---- Reading lines one after the other ----

  /** The parser goes from one state to the other over these lines, wherever they stand. */
  ghost predicate Reads(st: ParseState, lines: seq<string>, end: ParseState) {
    Reachable(st) && ParseLines(st, lines, 0) == Ok(end)
  }

  lemma {:induction false} LineNumbersDoNotMatter(st: ParseState, lines: seq<string>, m: nat, n: nat)
    requires Reachable(st)
    ensures ParseLines(st, lines, m).Ok? <==> ParseLines(st, lines, n).Ok?
    ensures ParseLines(st, lines, m).Ok? ==> ParseLines(st, lines, m) == ParseLines(st, lines, n)
    decreases |lines|
  {
    if lines != [] && ParseLine(st, lines[0]).Ok? {
      LineNumbersDoNotMatter(ParseLine(st, lines[0]).value, lines[1..], m + 1, n + 1);
    }
  }

  lemma {:induction false} ParseLinesAppend(st: ParseState, a: seq<string>, b: seq<string>, done: nat)
    requires Reachable(st)
    ensures ParseLines(st, a, done).Err? ==> ParseLines(st, a + b, done) == ParseLines(st, a, done)
    ensures ParseLines(st, a, done).Ok? ==>
              ParseLines(st, a + b, done) == ParseLines(ParseLines(st, a, done).value, b, done + |a|)
    decreases |a|
  {
    if a == [] {
      assert a + b == b;
    } else {
      assert (a + b)[0] == a[0] && (a + b)[1..] == a[1..] + b;
      if ParseLine(st, a[0]).Ok? {
        ParseLinesAppend(ParseLine(st, a[0]).value, a[1..], b, done + 1);
      }
    }
  }

  lemma ReadsAppend(st: ParseState, a: seq<string>, mid: ParseState, b: seq<string>, end: ParseState)
    requires Reads(st, a, mid) && Reads(mid, b, end)
    ensures Reads(st, a + b, end)
  {
    ParseLinesAppend(st, a, b, 0);
    LineNumbersDoNotMatter(mid, b, 0, |a|);
  }

  lemma ReadsCons(st: ParseState, line: string, mid: ParseState, rest: seq<string>, end: ParseState)
    requires Reachable(st) && ParseLine(st, line) == Ok(mid) && Reads(mid, rest, end)
    ensures Reads(st, [line] + rest, end)
  {
    assert ParseLines(st, [line], 0) == Ok(mid) by {
      assert [line][1..] == [];
    }
    ReadsAppend(st, [line], mid, rest, end);
  }

  lemma ReadsOne(st: ParseState, line: string, end: ParseState)
    requires Reachable(st) && ParseLine(st, line) == Ok(end)
    ensures Reads(st, [line], end)
  {
    assert [line][1..] == [];
  }

  // ---- One printed line ----

  predicate KeyWord(key: string) {
    key != "" && forall i :: 0 <= i < |key| ==> 'A' <= key[i] <= 'Z' || 'a' <= key[i] <= 'z'
  }

  /** A printed `Key = value` line splits back into the key and the trimmed value. */
  lemma KeyedLineSplits(key: string, v: string)
    requires KeyWord(key)
    ensures var line := Trim(key + " = " + v);
            && !Skipped(line) && !IsInterfaceHeader(line) && !IsPeerHeader(line)
            && SplitKv(line) == Some((key, Trim(v)))
  {
    var head := key + " =";
    var whole := key + " = " + v;
    assert whole == head + ([' '] + v) && TrimStart(whole) == whole;
    TrimEndAfter(head, [' '] + v);
    var w := TrimEnd([' '] + v);
    var line := Trim(whole);
    assert line == head + w == (key + " ") + ['='] + w;
    assert line[0] == key[0] && Lower(line)[0] == LowerChar(key[0]);
    FirstAt(key + " ", '=', w);
    assert line[..|key| + 1] == key + [' '] && line[|key| + 2..] == w;
    TrimTail(key, ' ');
    TrimId(key);
    TrimOfTrimEnd([' '] + v);
    TrimLead(' ', v);
  }

  lemma InterfaceLine(st: ParseState, key: string, v: string)
    requires KeyWord(key) && st.section == Interface
    ensures ParseLine(st, key + " = " + v) ==
            match InterfaceKv(st.iface, key, Trim(v))
            case Ok(i) => Ok(st.(iface := i))
            case Err(e) => Err(e)
  {
    KeyedLineSplits(key, v);
  }

  lemma InterfaceLineReads(st: ParseState, key: string, v: string, i: IfaceDraft)
    requires KeyWord(key) && st.section == Interface && InterfaceKv(st.iface, key, Trim(v)) == Ok(i)
    ensures Reads(st, Keyed(key, [v]), st.(iface := i))
  {
    hide ParseLine, InterfaceKv, Trim;
    InterfaceLine(st, key, v);
    ReadsOne(st, key + " = " + v, st.(iface := i));
    assert Keyed(key, [v]) == [key + " = " + v];
  }

  lemma PeerLine(st: ParseState, key: string, v: string)
    requires KeyWord(key) && st.section == Peer && Reachable(st)
    ensures ParseLine(st, key + " = " + v) ==
            match PeerKv(st.peers[|st.peers| - 1], key, Trim(v))
            case Ok(p) => Ok(st.(peers := st.peers[|st.peers| - 1 := p]))
            case Err(e) => Err(e)
  {
    KeyedLineSplits(key, v);
  }

  lemma SkippedLine(st: ParseState, raw: string)
    requires Reachable(st) && Skipped(Trim(raw))
    ensures ParseLine(st, raw) == Ok(st)
  {
  }

  // ---- The interface section ----

  /** A printed key parses back, trimmed or not. */
  lemma KeyText(k: Key)
    ensures FromBase64(Trim(ToBase64(k))) == Some(k)
  {
    KeyRoundTrip(k);
    TrimId(ToBase64(k));
  }

  lemma PrivateKeyKv(i: IfaceDraft, k: Key)
    ensures InterfaceKv(i, "PrivateKey", Trim(ToBase64(k))) == Ok(i.(privateKey := Some(k)))
  {
    KeyText(k);
    hide ToBase64, FromBase64, Trim;
    assert Lower("PrivateKey") == "privatekey";
  }

  lemma PrivateKeyRead(st: ParseState, k: Key)
    requires st.section == Interface
    ensures Reads(st, Keyed("PrivateKey", [ToBase64(k)]), st.(iface := st.iface.(privateKey := Some(k))))
  {
    assert KeyWord("PrivateKey");
    hide *;
    PrivateKeyKv(st.iface, k);
    InterfaceLineReads(st, "PrivateKey", ToBase64(k), st.iface.(privateKey := Some(k)));
  }

  /** A printed number parses back, trimmed or not. */
  lemma NumberValue(n: Port)
    ensures ParseUInt(Trim(ShowNat(n)), U16_MAX) == Some(n)
  {
    ShowNatClean(n);
    TrimId(ShowNat(n));
    ParseOfShow(n, U16_MAX);
  }

  lemma ListenPortKv(i: IfaceDraft, n: Port)
    ensures InterfaceKv(i, "ListenPort", Trim(ShowNat(n))) == Ok(i.(listenPort := n))
  {
    hide ParseUInt, ShowNat, Trim;
    NumberValue(n);
    assert Lower("ListenPort") == "listenport";
  }

  lemma ListenPortRead(st: ParseState, n: Port)
    requires st.section == Interface && st.iface.listenPort == 0
    ensures Reads(st, NumberLine("ListenPort", n), st.(iface := st.iface.(listenPort := n)))
  {
    assert KeyWord("ListenPort");
    hide InterfaceKv, ParseLine, Trim, ShowNat, KeyWord;
    if n != 0 {
      ListenPortKv(st.iface, n);
      InterfaceLineReads(st, "ListenPort", ShowNat(n), st.iface.(listenPort := n));
    }
  }

  lemma MtuKv(i: IfaceDraft, n: Port)
    ensures InterfaceKv(i, "MTU", Trim(ShowNat(n))) == Ok(i.(mtu := n))
  {
    hide ParseUInt, ShowNat, Trim;
    NumberValue(n);
    assert Lower("MTU") == "mtu";
  }

  lemma MtuRead(st: ParseState, n: Port)
    requires st.section == Interface && st.iface.mtu == 0
    ensures Reads(st, NumberLine("MTU", n), st.(iface := st.iface.(mtu := n)))
  {
    assert KeyWord("MTU");
    hide InterfaceKv, ParseLine, Trim, ShowNat, KeyWord;
    if n != 0 {
      MtuKv(st.iface, n);
      InterfaceLineReads(st, "MTU", ShowNat(n), st.iface.(mtu := n));
    }
  }

  lemma AddressKv(i: IfaceDraft, item: string)
    requires CleanItem(item)
    ensures InterfaceKv(i, "Address", Trim(item)) == Ok(AddAddresses(i, [item]))
  {
    TrimId(item);
    SplitLone(item, ',');
    assert SplitTrim(item, ',') == [item];
    hide SplitTrim, Trim;
    assert Lower("Address") == "address";
  }

  /** Reading a first line and then the rest of the lines of one key. */
  lemma KeyedReads(st: ParseState, key: string, values: seq<string>, mid: ParseState, end: ParseState)
    requires values != [] && Reads(st, Keyed(key, [values[0]]), mid) && Reads(mid, Keyed(key, values[1..]), end)
    ensures Reads(st, Keyed(key, values), end)
  {
    hide Reads;
    ReadsAppend(st, Keyed(key, [values[0]]), mid, Keyed(key, values[1..]), end);
    assert Keyed(key, values) == Keyed(key, [values[0]]) + Keyed(key, values[1..]);
  }

  function AddAddresses(i: IfaceDraft, items: seq<string>): IfaceDraft {
    i.(addresses := i.addresses + items)
  }

  lemma {:induction false} AddressesRead(st: ParseState, items: seq<string>)
    requires st.section == Interface && forall s :: s in items ==> CleanItem(s)
    ensures Reads(st, Keyed("Address", items), st.(iface := AddAddresses(st.iface, items)))
    decreases |items|
  {
    assert KeyWord("Address");
    if items == [] {
      assert AddAddresses(st.iface, []) == st.iface by { assert st.iface.addresses + [] == st.iface.addresses; }
    } else {
      assert items[0] in items;
      AddressKv(st.iface, items[0]);
      var mid := AddAddresses(st.iface, [items[0]]);
      assert AddAddresses(mid, items[1..]) == AddAddresses(st.iface, items) by {
        assert mid.addresses + items[1..] == st.iface.addresses + items;
      }
      hide *;
      InterfaceLineReads(st, "Address", items[0], mid);
      AddressesRead(st.(iface := mid), items[1..]);
      KeyedReads(st, "Address", items, st.(iface := mid), st.(iface := AddAddresses(st.iface, items)));
    }
  }

  lemma {:induction false} AddDnsIps(i: IfaceDraft, ips: seq<IpAddr>, rest: seq<string>)
    ensures AddDnsTokens(i, ShowIps(ips) + rest) == AddDnsTokens(i.(dns := i.dns + ips), rest)
    decreases |ips|
  {
    hide ParseIp, ShowIp;
    if ips == [] {
      assert ShowIps(ips) + rest == rest && i.dns + ips == i.dns;
    } else {
      var tokens := ShowIps(ips) + rest;
      ParseIpOfShow(ips[0]);
      assert ShowIp(ips[0]) != "" by { ShowIpClean(ips[0]); }
      assert tokens[0] == ShowIp(ips[0]) && tokens[1..] == ShowIps(ips[1..]) + rest;
      var j := i.(dns := i.dns + [ips[0]]);
      assert AddDnsToken(i, tokens[0]) == j;
      AddDnsIps(j, ips[1..], rest);
      assert j.dns + ips[1..] == i.dns + ips;
    }
  }

  lemma {:induction false} AddDnsDomains(i: IfaceDraft, domains: seq<string>)
    requires forall s :: s in domains ==> CleanDomain(s)
    ensures AddDnsTokens(i, domains) == i.(dnsSearch := i.dnsSearch + domains)
    decreases |domains|
  {
    hide ParseIp, CleanItem;
    if domains == [] {
      assert i.dnsSearch + domains == i.dnsSearch;
    } else {
      assert domains[0] in domains;
      var j := i.(dnsSearch := i.dnsSearch + [domains[0]]);
      AddDnsDomains(j, domains[1..]);
      assert j.dnsSearch + domains[1..] == i.dnsSearch + domains;
    }
  }

  lemma IpTextClean(ip: IpAddr)
    ensures CleanItem(ShowIp(ip))
  {
    hide ShowIp, Trimmed;
    ShowIpClean(ip);
  }

  lemma DnsItemsClean(dns: seq<IpAddr>, search: seq<string>)
    requires forall s :: s in search ==> CleanDomain(s)
    ensures forall t :: t in ShowIps(dns) + search ==> CleanItem(t)
  {
    forall t | t in ShowIps(dns) + search
      ensures CleanItem(t)
    {
      if t in ShowIps(dns) {
        var k :| 0 <= k < |dns| && t == ShowIp(dns[k]);
        IpTextClean(dns[k]);
      }
    }
  }

  /** A printed comma list, trimmed by the line parser, splits back into its items. */
  lemma ListValue(items: seq<string>)
    requires items != [] && forall t :: t in items ==> CleanItem(t)
    ensures SplitTrim(Trim(Join(items, ", ")), ',') == items
  {
    SplitTrimOfJoin(items);
    SplitTrimOfTrim(Join(items, ", "), ',');
  }

  lemma DnsKv(i: IfaceDraft, value: string)
    ensures InterfaceKv(i, "DNS", value) == Ok(AddDnsTokens(i, SplitTrim(value, ',')))
  {
    hide AddDnsTokens, SplitTrim;
    assert Lower("DNS") == "dns";
  }

  lemma DnsTokensRead(i: IfaceDraft, dns: seq<IpAddr>, search: seq<string>)
    requires i.dns == [] && i.dnsSearch == [] && ShowIps(dns) + search != []
    requires forall s :: s in search ==> CleanDomain(s)
    ensures InterfaceKv(i, "DNS", Trim(Join(ShowIps(dns) + search, ", "))) == Ok(i.(dns := dns, dnsSearch := search))
  {
    DnsItemsClean(dns, search);
    hide *;
    DnsKv(i, Trim(Join(ShowIps(dns) + search, ", ")));
    ListValue(ShowIps(dns) + search);
    AddDnsIps(i, dns, search);
    assert i.dns + dns == dns && i.dnsSearch + search == search;
    AddDnsDomains(i.(dns := dns), search);
  }

  lemma DnsRead(st: ParseState, dns: seq<IpAddr>, search: seq<string>)
    requires st.section == Interface && st.iface.dns == [] && st.iface.dnsSearch == []
    requires forall s :: s in search ==> CleanDomain(s)
    ensures Reads(st, ListLine("DNS", ShowIps(dns) + search), st.(iface := st.iface.(dns := dns, dnsSearch := search)))
  {
    assert KeyWord("DNS");
    hide InterfaceKv, ParseLine, Trim, Join, KeyWord, CleanDomain;
    assert |ShowIps(dns) + search| == |dns| + |search|;
    if ShowIps(dns) + search != [] {
      DnsTokensRead(st.iface, dns, search);
      InterfaceLineReads(st, "DNS", Join(ShowIps(dns) + search, ", "), st.iface.(dns := dns, dnsSearch := search));
    }
  }

  datatype Hook = PreUp | PostUp | PreDown | PostDown

  function HookKey(h: Hook): string {
    match h case PreUp => "PreUp" case PostUp => "PostUp" case PreDown => "PreDown" case PostDown => "PostDown"
  }

  function AddHooks(i: IfaceDraft, h: Hook, cmds: seq<string>): IfaceDraft {
    match h
    case PreUp => i.(preUp := i.preUp + cmds)
    case PostUp => i.(postUp := i.postUp + cmds)
    case PreDown => i.(preDown := i.preDown + cmds)
    case PostDown => i.(postDown := i.postDown + cmds)
  }

  lemma HookKv(i: IfaceDraft, h: Hook, cmd: string)
    requires CleanValue(cmd)
    ensures InterfaceKv(i, HookKey(h), Trim(cmd)) == Ok(AddHooks(i, h, [cmd])) && KeyWord(HookKey(h))
  {
    TrimId(cmd);
    hide Trim, FromBase64, ParseUInt, SplitTrim, AddDnsTokens;
    assert KeyWord(HookKey(h));
    match h
    case PreUp => assert Lower("PreUp") == "preup";
    case PostUp => assert Lower("PostUp") == "postup";
    case PreDown => assert Lower("PreDown") == "predown";
    case PostDown => assert Lower("PostDown") == "postdown";
  }

  lemma AddHooksAppend(i: IfaceDraft, h: Hook, a: seq<string>, b: seq<string>)
    ensures AddHooks(AddHooks(i, h, a), h, b) == AddHooks(i, h, a + b)
    ensures AddHooks(i, h, []) == i
  {
    assert forall s: seq<string> :: s + a + b == s + (a + b);
    assert forall s: seq<string> :: s + [] == s;
  }

  lemma {:induction false} HooksRead(st: ParseState, h: Hook, cmds: seq<string>)
    requires st.section == Interface && forall s :: s in cmds ==> CleanValue(s)
    ensures Reads(st, Keyed(HookKey(h), cmds), st.(iface := AddHooks(st.iface, h, cmds)))
    decreases |cmds|
  {
    hide InterfaceKv, ParseLine, Trim, KeyWord, CleanValue, HookKey, AddHooks;
    AddHooksAppend(st.iface, h, [], []);
    if cmds == [] {
    } else {
      hide Reads;
      assert cmds[0] in cmds;
      HookKv(st.iface, h, cmds[0]);
      var mid := AddHooks(st.iface, h, [cmds[0]]);
      InterfaceLineReads(st, HookKey(h), cmds[0], mid);
      HooksRead(st.(iface := mid), h, cmds[1..]);
      AddHooksAppend(st.iface, h, [cmds[0]], cmds[1..]);
      assert [cmds[0]] + cmds[1..] == cmds;
      KeyedReads(st, HookKey(h), cmds, st.(iface := mid), st.(iface := AddHooks(st.iface, h, cmds)));
    }
  }

  /** What a builder holds after reading the printed interface section. */
  function DraftOf(i: InterfaceConfig): IfaceDraft {
    IfaceDraft(Some(i.privateKey), i.listenPort, i.addresses, i.dns, i.dnsSearch, i.mtu, 0,
               i.preUp, i.postUp, i.preDown, i.postDown)
  }

  lemma IfaceRead(st: ParseState, i: InterfaceConfig)
    requires st.section == Interface && st.iface == EMPTY_IFACE && CleanIface(i)
    ensures Reads(st, IfaceLines(i), st.(iface := DraftOf(i)))
  {
    hide Reads, Keyed, NumberLine, ListLine, ToBase64, ShowIps, CleanItem, CleanValue, CleanDomain;
    var d1 := EMPTY_IFACE.(privateKey := Some(i.privateKey));
    var d2 := d1.(listenPort := i.listenPort);
    var d3 := d2.(addresses := i.addresses);
    var d4 := d3.(dns := i.dns, dnsSearch := i.dnsSearch);
    var d5 := d4.(mtu := i.mtu);
    var d6 := d5.(preUp := i.preUp);
    var d7 := d6.(postUp := i.postUp);
    var d8 := d7.(preDown := i.preDown);
    assert d8.(postDown := i.postDown) == DraftOf(i);
    assert forall s: seq<string> :: [] + s == s;
    PrivateKeyRead(st, i.privateKey);
    ListenPortRead(st.(iface := d1), i.listenPort);
    var l2 := Keyed("PrivateKey", [ToBase64(i.privateKey)]) + NumberLine("ListenPort", i.listenPort);
    ReadsAppend(st, Keyed("PrivateKey", [ToBase64(i.privateKey)]), st.(iface := d1),
                NumberLine("ListenPort", i.listenPort), st.(iface := d2));
    AddressesRead(st.(iface := d2), i.addresses);
    ReadsAppend(st, l2, st.(iface := d2), Keyed("Address", i.addresses), st.(iface := d3));
    DnsRead(st.(iface := d3), i.dns, i.dnsSearch);
    var l4 := l2 + Keyed("Address", i.addresses) + ListLine("DNS", ShowIps(i.dns) + i.dnsSearch);
    ReadsAppend(st, l2 + Keyed("Address", i.addresses), st.(iface := d3),
                ListLine("DNS", ShowIps(i.dns) + i.dnsSearch), st.(iface := d4));
    MtuRead(st.(iface := d4), i.mtu);
    var l5 := l4 + NumberLine("MTU", i.mtu);
    ReadsAppend(st, l4, st.(iface := d4), NumberLine("MTU", i.mtu), st.(iface := d5));
    HooksRead(st.(iface := d5), PreUp, i.preUp);
    ReadsAppend(st, l5, st.(iface := d5), Keyed("PreUp", i.preUp), st.(iface := d6));
    HooksRead(st.(iface := d6), PostUp, i.postUp);
    var l7 := l5 + Keyed("PreUp", i.preUp) + Keyed("PostUp", i.postUp);
    ReadsAppend(st, l5 + Keyed("PreUp", i.preUp), st.(iface := d6), Keyed("PostUp", i.postUp), st.(iface := d7));
    HooksRead(st.(iface := d7), PreDown, i.preDown);
    ReadsAppend(st, l7, st.(iface := d7), Keyed("PreDown", i.preDown), st.(iface := d8));
    HooksRead(st.(iface := d8), PostDown, i.postDown);
    ReadsAppend(st, l7 + Keyed("PreDown", i.preDown), st.(iface := d8),
                Keyed("PostDown", i.postDown), st.(iface := DraftOf(i)));
  }

  // ---- A peer section ----

  /** The parser is in a peer section whose builder holds `d`. */
  function AtPeer(st: ParseState, d: PeerDraft): ParseState {
    ParseState(Peer, st.iface, st.peers + [d])
  }

  lemma PeerLineReads(st: ParseState, d: PeerDraft, key: string, v: string, e: PeerDraft)
    requires KeyWord(key) && PeerKv(d, key, Trim(v)) == Ok(e)
    ensures Reads(AtPeer(st, d), Keyed(key, [v]), AtPeer(st, e))
  {
    hide ParseLine, PeerKv, Trim;
    var at := AtPeer(st, d);
    PeerLine(at, key, v);
    assert at.peers[|at.peers| - 1 := e] == st.peers + [e];
    ReadsOne(at, key + " = " + v, AtPeer(st, e));
    assert Keyed(key, [v]) == [key + " = " + v];
  }

  lemma NothingRead(st: ParseState)
    requires Reachable(st)
    ensures Reads(st, [], st)
  {
  }

  lemma NothingReadAt(st: ParseState, d: PeerDraft)
    ensures Reads(AtPeer(st, d), [], AtPeer(st, d))
  {
    NothingRead(AtPeer(st, d));
  }

  lemma PublicKeyRead(st: ParseState, d: PeerDraft, k: Key)
    ensures Reads(AtPeer(st, d), Keyed("PublicKey", [ToBase64(k)]), AtPeer(st, d.(publicKey := Some(k))))
  {
    KeyText(k);
    assert KeyWord("PublicKey");
    assert PeerKv(d, "PublicKey", Trim(ToBase64(k))) == Ok(d.(publicKey := Some(k))) by {
      hide ToBase64, FromBase64, Trim, AtPeer;
      assert Lower("PublicKey") == "publickey";
    }
    hide *;
    PeerLineReads(st, d, "PublicKey", ToBase64(k), d.(publicKey := Some(k)));
  }

  lemma PresharedKeyRead(st: ParseState, d: PeerDraft, k: Option<Key>)
    requires d.presharedKey == None
    ensures Reads(AtPeer(st, d), OptionLine("PresharedKey", ShowKey(k)), AtPeer(st, d.(presharedKey := k)))
  {
    hide Reads, AtPeer, Keyed, ToBase64, FromBase64, Trim, KeyWord;
    if k.Some? {
      KeyText(k.value);
      PresharedKeyKv(d, k.value);
      PeerLineReads(st, d, "PresharedKey", ToBase64(k.value), d.(presharedKey := k));
    } else {
      NothingReadAt(st, d);
    }
  }

  lemma PresharedKeyKv(d: PeerDraft, k: Key)
    ensures KeyWord("PresharedKey") && PeerKv(d, "PresharedKey", Trim(ToBase64(k))) == Ok(d.(presharedKey := Some(k)))
  {
    KeyText(k);
    hide ToBase64, FromBase64, Trim;
    assert Lower("PresharedKey") == "presharedkey";
  }

  lemma EndpointRead(st: ParseState, d: PeerDraft, ep: Option<string>)
    requires d.endpoint == None && (ep.Some? ==> CleanValue(ep.value))
    ensures Reads(AtPeer(st, d), OptionLine("Endpoint", ep), AtPeer(st, d.(endpoint := ep)))
  {
    hide Reads, AtPeer, Keyed, Trim, KeyWord, CleanValue;
    if ep.Some? {
      EndpointKv(d, ep.value);
      PeerLineReads(st, d, "Endpoint", ep.value, d.(endpoint := ep));
    } else {
      NothingReadAt(st, d);
    }
  }

  lemma EndpointKv(d: PeerDraft, ep: string)
    requires CleanValue(ep)
    ensures KeyWord("Endpoint") && PeerKv(d, "Endpoint", Trim(ep)) == Ok(d.(endpoint := Some(ep)))
  {
    TrimId(ep);
    hide Trim;
    assert Lower("Endpoint") == "endpoint";
  }

  lemma AllowedIpsRead(st: ParseState, d: PeerDraft, items: seq<string>)
    requires d.allowedIps == [] && forall s :: s in items ==> CleanItem(s)
    ensures Reads(AtPeer(st, d), ListLine("AllowedIPs", items), AtPeer(st, d.(allowedIps := items)))
  {
    hide Reads, AtPeer, Keyed, Trim, KeyWord, CleanItem, Join, PeerKv;
    if items != [] {
      AllowedIpsKv(d, items);
      PeerLineReads(st, d, "AllowedIPs", Join(items, ", "), d.(allowedIps := items));
    } else {
      NothingReadAt(st, d);
    }
  }

  lemma AllowedIpsKv(d: PeerDraft, items: seq<string>)
    requires d.allowedIps == [] && items != [] && forall s :: s in items ==> CleanItem(s)
    ensures KeyWord("AllowedIPs") && PeerKv(d, "AllowedIPs", Trim(Join(items, ", "))) == Ok(d.(allowedIps := items))
  {
    ListValue(items);
    hide Trim, Join, SplitTrim, CleanItem, FromBase64, ParseUInt;
    assert Lower("AllowedIPs") == "allowedips";
    assert d.allowedIps + items == items;
  }

  lemma KeepaliveRead(st: ParseState, d: PeerDraft, n: Port)
    requires d.persistentKeepalive == 0
    ensures Reads(AtPeer(st, d), NumberLine("PersistentKeepalive", n), AtPeer(st, d.(persistentKeepalive := n)))
  {
    hide Reads, AtPeer, Keyed, Trim, ShowNat, KeyWord, PeerKv;
    if n != 0 {
      KeepaliveKv(d, n);
      PeerLineReads(st, d, "PersistentKeepalive", ShowNat(n), d.(persistentKeepalive := n));
    } else {
      NothingReadAt(st, d);
    }
  }

  lemma KeepaliveKv(d: PeerDraft, n: Port)
    ensures KeyWord("PersistentKeepalive")
    ensures PeerKv(d, "PersistentKeepalive", Trim(ShowNat(n))) == Ok(d.(persistentKeepalive := n))
  {
    NumberValue(n);
    hide Trim, ShowNat, ParseUInt, FromBase64, SplitTrim;
    assert KeyWord("PersistentKeepalive");
    assert Lower("PersistentKeepalive") == "persistentkeepalive";
    hide Lower, KeyWord;
  }

  function PeerDraftOf(p: PeerConfig): PeerDraft {
    PeerDraft("", Some(p.publicKey), p.presharedKey, p.endpoint, p.allowedIps, p.persistentKeepalive)
  }

  lemma PeerBodyRead(st: ParseState, p: PeerConfig)
    requires CleanPeerFields(p.endpoint, p.allowedIps)
    ensures Reads(AtPeer(st, EMPTY_PEER), PeerBody(p), AtPeer(st, PeerDraftOf(p)))
  {
    hide Reads, Keyed, NumberLine, ListLine, OptionLine, ToBase64, AtPeer, CleanItem, CleanValue;
    var d1 := EMPTY_PEER.(publicKey := Some(p.publicKey));
    var d2 := d1.(presharedKey := p.presharedKey);
    var d3 := d2.(endpoint := p.endpoint);
    var d4 := d3.(allowedIps := p.allowedIps);
    assert d4.(persistentKeepalive := p.persistentKeepalive) == PeerDraftOf(p);
    var s0 := AtPeer(st, EMPTY_PEER);
    PublicKeyRead(st, EMPTY_PEER, p.publicKey);
    PresharedKeyRead(st, d1, p.presharedKey);
    var l1 := Keyed("PublicKey", [ToBase64(p.publicKey)]);
    ReadsAppend(s0, l1, AtPeer(st, d1), OptionLine("PresharedKey", ShowKey(p.presharedKey)), AtPeer(st, d2));
    EndpointRead(st, d2, p.endpoint);
    var l2 := l1 + OptionLine("PresharedKey", ShowKey(p.presharedKey));
    ReadsAppend(s0, l2, AtPeer(st, d2), OptionLine("Endpoint", p.endpoint), AtPeer(st, d3));
    AllowedIpsRead(st, d3, p.allowedIps);
    var l3 := l2 + OptionLine("Endpoint", p.endpoint);
    ReadsAppend(s0, l3, AtPeer(st, d3), ListLine("AllowedIPs", p.allowedIps), AtPeer(st, d4));
    KeepaliveRead(st, d4, p.persistentKeepalive);
    ReadsAppend(s0, l3 + ListLine("AllowedIPs", p.allowedIps), AtPeer(st, d4),
                NumberLine("PersistentKeepalive", p.persistentKeepalive), AtPeer(st, PeerDraftOf(p)));
  }

  lemma TrimStartsWith(c: char, s: string)
    requires !IsWhite(c)
    ensures Trim([c] + s) != "" && Trim([c] + s)[0] == c
  {
    TrimEndAfter([c], s);
  }

  lemma PeerHeadRead(st: ParseState, name: string)
    requires Reachable(st)
    ensures Reads(st, ["", "[Peer]"] + NameLine(name), AtPeer(st, EMPTY_PEER))
  {
    var s0 := AtPeer(st, EMPTY_PEER);
    TrimId("[Peer]");
    assert Lower("[Peer]") == "[peer]" && "[Peer]"[0] == '[';
    ReadsOne(st, "[Peer]", s0);
    ReadsCons(st, "", st, ["[Peer]"], s0);
    assert [""] + ["[Peer]"] == ["", "[Peer]"];
    if name == "" {
      assert ["", "[Peer]"] + NameLine(name) == ["", "[Peer]"];
    } else {
      assert "# Name = " + name == ['#'] + (" Name = " + name);
      TrimStartsWith('#', " Name = " + name);
      ReadsOne(s0, "# Name = " + name, s0);
      ReadsAppend(st, ["", "[Peer]"], s0, NameLine(name), s0);
    }
  }

  lemma PeerRead(st: ParseState, p: PeerConfig)
    requires Reachable(st) && CleanPeerFields(p.endpoint, p.allowedIps)
    ensures Reads(st, PeerLines(p), AtPeer(st, PeerDraftOf(p)))
  {
    hide Reads, PeerBody, NameLine, CleanPeerFields;
    PeerHeadRead(st, p.name);
    PeerBodyRead(st, p);
    ReadsAppend(st, ["", "[Peer]"] + NameLine(p.name), AtPeer(st, EMPTY_PEER), PeerBody(p), AtPeer(st, PeerDraftOf(p)));
  }

  function PeerDraftsOf(ps: seq<PeerConfig>): (r: seq<PeerDraft>)
    ensures |r| == |ps| && forall i :: 0 <= i < |ps| ==> r[i] == PeerDraftOf(ps[i])
  {
    seq(|ps|, i requires 0 <= i < |ps| => PeerDraftOf(ps[i]))
  }

  /** Where the parser stands after reading printed peer sections. */
  function AfterPeers(st: ParseState, ps: seq<PeerConfig>): ParseState {
    if ps == [] then st else ParseState(Peer, st.iface, st.peers + PeerDraftsOf(ps))
  }

  lemma DraftsCons(ps: seq<PeerConfig>)
    requires ps != []
    ensures PeerDraftsOf(ps) == [PeerDraftOf(ps[0])] + PeerDraftsOf(ps[1..])
  {
    hide PeerDraftOf;
  }

  lemma AfterFirstPeer(st: ParseState, ps: seq<PeerConfig>)
    requires ps != []
    ensures AfterPeers(AtPeer(st, PeerDraftOf(ps[0])), ps[1..]) == AfterPeers(st, ps)
  {
    hide PeerDraftOf, PeerDraftsOf;
    DraftsCons(ps);
    var a, b := [PeerDraftOf(ps[0])], PeerDraftsOf(ps[1..]);
    assert (st.peers + a) + b == st.peers + (a + b);
    if ps[1..] == [] {
      assert st.peers + (a + b) == st.peers + a;
    }
  }

  lemma {:induction false} PeersRead(st: ParseState, ps: seq<PeerConfig>)
    requires Reachable(st) && forall p :: p in ps ==> CleanPeerFields(p.endpoint, p.allowedIps)
    ensures Reads(st, AllPeerLines(ps), AfterPeers(st, ps))
    decreases |ps|
  {
    if ps == [] {
      NothingRead(st);
    } else {
      hide Reads, PeerLines, CleanPeerFields, PeerDraftOf, AfterPeers;
      assert ps[0] in ps;
      PeerRead(st, ps[0]);
      var mid := AtPeer(st, PeerDraftOf(ps[0]));
      PeersRead(mid, ps[1..]);
      AfterFirstPeer(st, ps);
      ReadsAppend(st, PeerLines(ps[0]), mid, AllPeerLines(ps[1..]), AfterPeers(st, ps));
    }
  }

  // ---- The printed text splits back into its lines ----

  predicate AllPlain(lines: seq<string>) {
    forall l :: l in lines ==> PlainLine(l)
  }

  lemma AllPlainAppend(a: seq<string>, b: seq<string>)
    requires AllPlain(a) && AllPlain(b)
    ensures AllPlain(a + b)
  {
  }

  lemma KeyedPlain(key: string, values: seq<string>)
    requires KeyWord(key) && forall v :: v in values ==> PlainLine(v)
    ensures AllPlain(Keyed(key, values))
  {
    forall l | l in Keyed(key, values)
      ensures PlainLine(l)
    {
      var i :| 0 <= i < |values| && l == key + " = " + values[i];
      assert values[i] in values;
      if values[i] != "" {
        assert l[|l| - 1] == values[i][|values[i]| - 1];
      } else {
        assert l[|l| - 1] == ' ';
      }
    }
  }

  lemma {:induction false} JoinPlain(items: seq<string>)
    requires forall t :: t in items ==> CleanItem(t)
    ensures PlainLine(Join(items, ", "))
  {
    if |items| == 0 {
    } else {
      assert CleanItem(items[0]);
      if |items| > 1 {
        JoinPlain(items[1..]);
        PlainAfterComma(items[0], Join(items[1..], ", "));
        assert Join(items, ", ") == items[0] + ", " + Join(items[1..], ", ");
      }
    }
  }

  lemma PlainAfterComma(a: string, rest: string)
    requires Lacks(a, '\n') && PlainLine(rest)
    ensures PlainLine(a + ", " + rest)
  {
    var j := a + ", " + rest;
    assert j[|j| - 1] == if rest == "" then ' ' else rest[|rest| - 1];
  }

  lemma KeyedClean(key: string, values: seq<string>)
    requires KeyWord(key) && forall v :: v in values ==> CleanValue(v)
    ensures AllPlain(Keyed(key, values))
  {
    forall v | v in values
      ensures PlainLine(v)
    {
      assert CleanValue(v);
    }
    KeyedPlain(key, values);
  }

  lemma ItemsAreValues(items: seq<string>)
    requires forall s :: s in items ==> CleanItem(s)
    ensures forall s :: s in items ==> CleanValue(s)
  {
  }

  lemma NumberLinePlain(key: string, n: nat)
    requires KeyWord(key)
    ensures AllPlain(NumberLine(key, n))
  {
    ShowNatClean(n);
    KeyedPlain(key, [ShowNat(n)]);
  }

  lemma ListLinePlain(key: string, items: seq<string>)
    requires KeyWord(key) && forall t :: t in items ==> CleanItem(t)
    ensures AllPlain(ListLine(key, items))
  {
    JoinPlain(items);
    KeyedPlain(key, [Join(items, ", ")]);
  }

  lemma SettingsPlain(i: InterfaceConfig)
    requires CleanIface(i)
    ensures AllPlain(Keyed("PrivateKey", [ToBase64(i.privateKey)]))
    ensures AllPlain(NumberLine("ListenPort", i.listenPort))
    ensures AllPlain(Keyed("Address", i.addresses))
    ensures AllPlain(ListLine("DNS", ShowIps(i.dns) + i.dnsSearch))
    ensures AllPlain(NumberLine("MTU", i.mtu))
  {
    KeyTextClean(i.privateKey);
    DnsItemsClean(i.dns, i.dnsSearch);
    ItemsAreValues(i.addresses);
    assert forall v :: v in [ToBase64(i.privateKey)] ==> CleanValue(v);
    assert KeyWord("PrivateKey") && KeyWord("ListenPort") && KeyWord("Address") && KeyWord("DNS") && KeyWord("MTU");
    hide *;
    KeyedClean("PrivateKey", [ToBase64(i.privateKey)]);
    NumberLinePlain("ListenPort", i.listenPort);
    KeyedClean("Address", i.addresses);
    ListLinePlain("DNS", ShowIps(i.dns) + i.dnsSearch);
    NumberLinePlain("MTU", i.mtu);
  }

  lemma HooksPlain(i: InterfaceConfig)
    requires CleanIface(i)
    ensures AllPlain(Keyed("PreUp", i.preUp))
    ensures AllPlain(Keyed("PostUp", i.postUp))
    ensures AllPlain(Keyed("PreDown", i.preDown))
    ensures AllPlain(Keyed("PostDown", i.postDown))
  {
    assert KeyWord("PreUp") && KeyWord("PostUp") && KeyWord("PreDown") && KeyWord("PostDown");
    hide KeyWord, CleanValue, Keyed, AllPlain;
    KeyedClean("PreUp", i.preUp);
    KeyedClean("PostUp", i.postUp);
    KeyedClean("PreDown", i.preDown);
    KeyedClean("PostDown", i.postDown);
  }

  lemma IfaceLinesPlain(i: InterfaceConfig)
    requires CleanIface(i)
    ensures AllPlain(IfaceLines(i))
  {
    SettingsPlain(i);
    HooksPlain(i);
    hide AllPlain, PlainLine, Keyed, NumberLine, ListLine, ToBase64, ShowIps, CleanIface;
    var l2 := Keyed("PrivateKey", [ToBase64(i.privateKey)]) + NumberLine("ListenPort", i.listenPort);
    AllPlainAppend(Keyed("PrivateKey", [ToBase64(i.privateKey)]), NumberLine("ListenPort", i.listenPort));
    AllPlainAppend(l2, Keyed("Address", i.addresses));
    var l4 := l2 + Keyed("Address", i.addresses) + ListLine("DNS", ShowIps(i.dns) + i.dnsSearch);
    AllPlainAppend(l2 + Keyed("Address", i.addresses), ListLine("DNS", ShowIps(i.dns) + i.dnsSearch));
    AllPlainAppend(l4, NumberLine("MTU", i.mtu));
    var l6 := l4 + NumberLine("MTU", i.mtu) + Keyed("PreUp", i.preUp);
    AllPlainAppend(l4 + NumberLine("MTU", i.mtu), Keyed("PreUp", i.preUp));
    AllPlainAppend(l6, Keyed("PostUp", i.postUp));
    AllPlainAppend(l6 + Keyed("PostUp", i.postUp), Keyed("PreDown", i.preDown));
    AllPlainAppend(l6 + Keyed("PostUp", i.postUp) + Keyed("PreDown", i.preDown), Keyed("PostDown", i.postDown));
  }

  lemma OptionLinePlain(key: string, v: Option<string>)
    requires KeyWord(key) && (v.Some? ==> CleanValue(v.value))
    ensures AllPlain(OptionLine(key, v))
  {
    if v.Some? {
      KeyedPlain(key, [v.value]);
    }
  }

  lemma KeyTextClean(k: Key)
    ensures CleanValue(ToBase64(k))
  {
    KeyRoundTrip(k);
  }

  lemma PeerBodyPlain(p: PeerConfig)
    requires CleanPeerFields(p.endpoint, p.allowedIps)
    ensures AllPlain(PeerBody(p))
  {
    KeyTextClean(p.publicKey);
    if p.presharedKey.Some? {
      KeyTextClean(p.presharedKey.value);
    }
    assert KeyWord("PublicKey") && KeyWord("PresharedKey") && KeyWord("Endpoint") && KeyWord("AllowedIPs");
    assert KeyWord("PersistentKeepalive");
    var l0 := Keyed("PublicKey", [ToBase64(p.publicKey)]);
    var l1 := OptionLine("PresharedKey", ShowKey(p.presharedKey));
    var l2 := OptionLine("Endpoint", p.endpoint);
    var l3 := ListLine("AllowedIPs", p.allowedIps);
    var l4 := NumberLine("PersistentKeepalive", p.persistentKeepalive);
    hide AllPlain, PlainLine, Keyed, NumberLine, ListLine, OptionLine, ToBase64, CleanItem, CleanValue, KeyWord;
    KeyedClean("PublicKey", [ToBase64(p.publicKey)]);
    OptionLinePlain("PresharedKey", ShowKey(p.presharedKey));
    OptionLinePlain("Endpoint", p.endpoint);
    ListLinePlain("AllowedIPs", p.allowedIps);
    NumberLinePlain("PersistentKeepalive", p.persistentKeepalive);
    AllPlainAppend(l0, l1);
    AllPlainAppend(l0 + l1, l2);
    AllPlainAppend(l0 + l1 + l2, l3);
    AllPlainAppend(l0 + l1 + l2 + l3, l4);
  }

  /** `validate_name` is what keeps the `# Name` comment on one line. */
  lemma NameLinePlain(name: string)
    requires GoodName(name)
    ensures AllPlain(NameLine(name))
  {
    if name != "" {
      NameIsSafe(name);
      var l := "# Name = " + name;
      assert l[|l| - 1] == name[|name| - 1];
    }
  }

  predicate Printable(c: WgConfig) {
    Clean(c) && forall p :: p in c.peers ==> GoodName(p.name)
  }

  lemma {:induction false} AllPeerLinesPlain(ps: seq<PeerConfig>)
    requires forall p :: p in ps ==> CleanPeerFields(p.endpoint, p.allowedIps) && GoodName(p.name)
    ensures AllPlain(AllPeerLines(ps))
  {
    if ps == [] {
    } else {
      assert ps[0] in ps;
      PeerBodyPlain(ps[0]);
      NameLinePlain(ps[0].name);
      AllPeerLinesPlain(ps[1..]);
    }
  }

  lemma PlainLinesComeBack(lines: seq<string>)
    requires AllPlain(lines)
    ensures Lines(Unlines(lines)) == lines
  {
    LinesUnlines(lines);
  }

  lemma ExportPartsPlain(c: WgConfig)
    requires Printable(c)
    ensures AllPlain(["[Interface]"]) && AllPlain(IfaceLines(c.iface)) && AllPlain(AllPeerLines(c.peers))
  {
    HeaderPlain();
    hide IfaceLines, AllPeerLines, CleanIface, CleanPeerFields, GoodName, AllPlain;
    IfaceLinesPlain(c.iface);
    AllPeerLinesPlain(c.peers);
  }

  lemma HeaderPlain()
    ensures AllPlain(["[Interface]"])
  {
    assert PlainLine("[Interface]");
  }

  lemma ExportParts(c: WgConfig)
    ensures ExportLines(c) == ["[Interface]"] + IfaceLines(c.iface) + AllPeerLines(c.peers)
    ensures Export(c) == Unlines(ExportLines(c))
  {
  }

  /** The printed text splits into the lines written, none of them altered. */
  lemma LinesOfExport(c: WgConfig)
    requires Printable(c)
    ensures Lines(Export(c)) == ExportLines(c)
  {
    hide *;
    var header := ["[Interface]"];
    ExportPartsPlain(c);
    AllPlainAppend(header, IfaceLines(c.iface));
    AllPlainAppend(header + IfaceLines(c.iface), AllPeerLines(c.peers));
    PlainLinesComeBack(header + IfaceLines(c.iface) + AllPeerLines(c.peers));
    ExportParts(c);
  }

  // ---- The main results ----

  /** What the format cannot carry: the firewall mark and the peer names. */
  function Erased(c: WgConfig): WgConfig {
    WgConfig(c.iface.(fwmark := 0), Unnamed(c.peers))
  }

  function Unnamed(ps: seq<PeerConfig>): (r: seq<PeerConfig>)
    ensures |r| == |ps| && forall i :: 0 <= i < |ps| ==> r[i] == ps[i].(name := "")
  {
    seq(|ps|, i requires 0 <= i < |ps| => ps[i].(name := ""))
  }

  lemma HeaderRead()
    ensures Reads(START, ["[Interface]"], START.(section := Interface))
  {
    TrimId("[Interface]");
    assert Lower("[Interface]") == "[interface]" && "[Interface]"[0] == '[';
    ReadsOne(START, "[Interface]", START.(section := Interface));
  }

  /** Where the parser stands at the end of a printed configuration. */
  function EndOf(c: WgConfig): ParseState {
    AfterPeers(ParseState(Interface, DraftOf(c.iface), []), c.peers)
  }

  lemma ExportRead(c: WgConfig)
    requires Clean(c)
    ensures Reads(START, ExportLines(c), EndOf(c))
  {
    hide Reads, IfaceLines, AllPeerLines, DraftOf, CleanIface, CleanPeerFields;
    HeaderRead();
    var s0 := START.(section := Interface);
    IfaceRead(s0, c.iface);
    var s1 := s0.(iface := DraftOf(c.iface));
    ReadsAppend(START, ["[Interface]"], s0, IfaceLines(c.iface), s1);
    PeersRead(s1, c.peers);
    ReadsAppend(START, ["[Interface]"] + IfaceLines(c.iface), s1, AllPeerLines(c.peers), EndOf(c));
  }

  lemma BuiltPeers(ps: seq<PeerConfig>)
    ensures BuildPeers(PeerDraftsOf(ps)) == Ok(Unnamed(ps))
  {
    var drafts := PeerDraftsOf(ps);
    assert forall i :: 0 <= i < |ps| ==> BuildPeer(drafts[i]) == Ok(Unnamed(ps)[i]);
    assert BuildPeers(drafts).value == Unnamed(ps);
  }

  lemma ErasedValid(c: WgConfig)
    requires Validate(c).Ok?
    ensures Validate(Erased(c)).Ok?
  {
    ValidateIff(c);
    ValidateIff(Erased(c));
  }

  lemma FinishEnd(c: WgConfig)
    requires Validate(c).Ok?
    ensures Finish(EndOf(c)) == Ok(Erased(c))
  {
    ErasedValid(c);
    BuiltPeers(c.peers);
    assert c.peers != [];
    hide Validate, BuildPeers;
    assert EndOf(c).peers == PeerDraftsOf(c.peers) by { assert [] + PeerDraftsOf(c.peers) == PeerDraftsOf(c.peers); }
    assert BuildIface(EndOf(c).iface) == Ok(Erased(c).iface);
  }

  /** Load after export: for every configuration that passes validation and whose strings are clean, the
      text parses back to the configuration itself, minus what the format cannot carry. */
  lemma LoadOfExport(c: WgConfig)
    requires Clean(c) && Validate(c).Ok?
    ensures Load(Export(c)) == Ok(Erased(c))
  {
    assert forall p :: p in c.peers ==> GoodName(p.name) by { ValidateIff(c); }
    LinesOfExport(c);
    ExportRead(c);
    FinishEnd(c);
  }

  lemma CleanOfErased(c: WgConfig)
    requires Clean(Erased(c))
    ensures Clean(c)
  {
    forall p | p in c.peers
      ensures CleanPeerFields(p.endpoint, p.allowedIps)
    {
      var k :| 0 <= k < |c.peers| && c.peers[k] == p;
      assert Erased(c).peers[k] in Erased(c).peers;
    }
  }

  /** The exact class of configurations that survive: among those that pass validation, load after
      export gives the configuration back if and only if its strings are clean. */
  lemma RoundTripIff(c: WgConfig)
    requires Validate(c).Ok?
    ensures Load(Export(c)) == Ok(Erased(c)) <==> Clean(c)
  {
    hide Load, Export, Clean, Erased, Validate;
    if Load(Export(c)) == Ok(Erased(c)) {
      LoadedIsClean(Export(c));
      CleanOfErased(c);
    }
    if Clean(c) {
      LoadOfExport(c);
    }
  }

  /** Export after load, with no condition on the text: everything the parser accepts prints to a text
      that parses to the same configuration (with the firewall mark reset). */
  lemma ExportOfLoadedParses(text: string)
    requires Load(text).Ok?
    ensures var c := Load(text).value; Load(Export(c)) == Ok(c.(iface := c.iface.(fwmark := 0)))
  {
    hide Load, Export, Clean, Validate;
    var c := Load(text).value;
    LoadedIsClean(text);
    LoadOfExport(c);
    assert forall i :: 0 <= i < |c.peers| ==> c.peers[i] in c.peers;
    assert Erased(c).peers == c.peers;
  }

  /** The printed form is canonical: loading it and printing again gives the same text. */
  lemma ExportIsCanonical(text: string)
    requires Load(text).Ok?
    ensures var out := Export(Load(text).value); Load(out).Ok? && Export(Load(out).value) == out
  {
    ExportOfLoadedParses(text);
    var c := Load(text).value;
    assert ExportLines(c.(iface := c.iface.(fwmark := 0))) == ExportLines(c);
  }
}

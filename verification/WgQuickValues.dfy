/** What the lines of a wg-quick section mean, key by key, independently of how they are read: list keys
    collect the values of all their lines, the other keys take the last one. */
module WgQuickValues {
  import opened Wrappers
  import opened Text
  import opened Decimal
  import opened IpAddress
  import opened Base64Key
  import opened Config
  import opened WgQuick
  import opened WgQuickRoundTrip
  import opened WgQuickSections

  // ---- The values of one key ----

  /** A `key = value` line cut at its first `=`. */
  predicate CutsInto(line: string, key: string, value: string) {
    exists n :: 0 <= n < |line| && line[n] == '=' && Lacks(line[..n], '=')
                && key == Trim(line[..n]) && value == Trim(line[n + 1..])
  }

  lemma SplitsAtFirstEquals(line: string)
    ensures SplitKv(line).None? <==> Lacks(line, '=')
    ensures SplitKv(line).Some? ==> CutsInto(line, SplitKv(line).value.0, SplitKv(line).value.1)
  {
    var n := First(line, '=');
    if n < |line| {
      assert line[n] == '=' && Lacks(line[..n], '=');
    }
    hide Trim;
  }

  function ValueFor(line: string, key: string): seq<string> {
    match SplitKv(line)
    case Some((k, v)) => if Lower(k) == key then [v] else []
    case None => []
  }

  /** The values a section body gives to a key, in order; the key in lower case. */
  function ValuesOf(body: seq<string>, key: string): seq<string> {
    if body == [] then [] else ValueFor(body[0], key) + ValuesOf(body[1..], key)
  }

  /** The items of comma lists, one after the other. */
  function ItemsOf(values: seq<string>): seq<string> {
    if values == [] then [] else SplitTrim(values[0], ',') + ItemsOf(values[1..])
  }

  function LastNumber(values: seq<string>, max: nat, default: nat): nat {
    if values == [] then default
    else match ParseUInt(values[|values| - 1], max) case Some(n) => n case None => 0
  }

  function LastKey(values: seq<string>, default: Option<Key>): Option<Key> {
    if values == [] then default else FromBase64(values[|values| - 1])
  }

  function LastText(values: seq<string>, default: Option<string>): Option<string> {
    if values == [] then default else Some(values[|values| - 1])
  }

  /** The addresses among the tokens, and the other non-empty ones. */
  function Servers(tokens: seq<string>): seq<IpAddr> {
    if tokens == [] then [] else
    (match ParseIp(tokens[0]) case Some(ip) => [ip] case None => []) + Servers(tokens[1..])
  }

  function Domains(tokens: seq<string>): seq<string> {
    if tokens == [] then [] else
    (if tokens[0] == "" || ParseIp(tokens[0]).Some? then [] else [tokens[0]]) + Domains(tokens[1..])
  }

  // ---- What a body must look like ----

  const NUMBER_KEYS := {"listenport", "mtu", "fwmark"}
  const LIST_KEYS := {"address", "dns", "preup", "postup", "predown", "postdown"}

  predicate IfaceValueOk(key: string, value: string) {
    || key in LIST_KEYS
    || (key == "privatekey" && FromBase64(value).Some?)
    || (key in NUMBER_KEYS && ParseUInt(value, if key == "fwmark" then U32_MAX else U16_MAX).Some?)
  }

  predicate PeerValueOk(key: string, value: string) {
    || key == "endpoint" || key == "allowedips"
    || ((key == "publickey" || key == "presharedkey") && FromBase64(value).Some?)
    || (key == "persistentkeepalive" && ParseUInt(value, U16_MAX).Some?)
  }

  lemma InterfaceKvOk(i: IfaceDraft, key: string, value: string)
    ensures InterfaceKv(i, key, value).Ok? <==> IfaceValueOk(Lower(key), value)
  {
    hide FromBase64, ParseUInt, SplitTrim, AddDnsTokens, Lower;
  }

  lemma PeerKvOk(p: PeerDraft, key: string, value: string)
    ensures PeerKv(p, key, value).Ok? <==> PeerValueOk(Lower(key), value)
  {
    hide FromBase64, ParseUInt, SplitTrim, Lower;
  }

  predicate IfaceLineOk(line: string) {
    SplitKv(line).Some? && IfaceValueOk(Lower(SplitKv(line).value.0), SplitKv(line).value.1)
  }

  predicate PeerLineOk(line: string) {
    SplitKv(line).Some? && PeerValueOk(Lower(SplitKv(line).value.0), SplitKv(line).value.1)
  }

  // ---- What a body says ----

  function IfaceSays(i: IfaceDraft, body: seq<string>): IfaceDraft {
    IfaceDraft(
      LastKey(ValuesOf(body, "privatekey"), i.privateKey),
      LastPort(ValuesOf(body, "listenport"), i.listenPort),
      i.addresses + ItemsOf(ValuesOf(body, "address")),
      i.dns + Servers(ItemsOf(ValuesOf(body, "dns"))),
      i.dnsSearch + Domains(ItemsOf(ValuesOf(body, "dns"))),
      LastPort(ValuesOf(body, "mtu"), i.mtu),
      LastWord(ValuesOf(body, "fwmark"), i.fwmark),
      i.preUp + ValuesOf(body, "preup"),
      i.postUp + ValuesOf(body, "postup"),
      i.preDown + ValuesOf(body, "predown"),
      i.postDown + ValuesOf(body, "postdown"))
  }

  function LastPort(values: seq<string>, default: Port): Port {
    LastNumber(values, U16_MAX, default)
  }

  function LastWord(values: seq<string>, default: Word): Word {
    LastNumber(values, U32_MAX, default)
  }

  function PeerSays(p: PeerDraft, body: seq<string>): PeerDraft {
    PeerDraft(
      p.name,
      LastKey(ValuesOf(body, "publickey"), p.publicKey),
      LastKey(ValuesOf(body, "presharedkey"), p.presharedKey),
      LastText(ValuesOf(body, "endpoint"), p.endpoint),
      p.allowedIps + ItemsOf(ValuesOf(body, "allowedips")),
      LastPort(ValuesOf(body, "persistentkeepalive"), p.persistentKeepalive))
  }

  // ---- Reading agrees with meaning ----

  lemma ValuesCons(line: string, rest: seq<string>, key: string)
    ensures ValuesOf([line] + rest, key) == ValueFor(line, key) + ValuesOf(rest, key)
  {
    hide ValueFor;
    assert ([line] + rest)[0] == line && ([line] + rest)[1..] == rest;
  }

  /** One line gives its value to its own key and none to the others. */
  lemma OneKey(line: string, rest: seq<string>, key: string, value: string)
    requires SplitKv(line).Some? && key == Lower(SplitKv(line).value.0) && value == SplitKv(line).value.1
    ensures ValuesOf([line] + rest, key) == [value] + ValuesOf(rest, key)
    ensures forall other :: other != key ==> ValuesOf([line] + rest, other) == ValuesOf(rest, other)
  {
    ValuesCons(line, rest, key);
    hide Lower, SplitKv, ValuesOf;
    forall other | other != key
      ensures ValuesOf([line] + rest, other) == ValuesOf(rest, other)
    {
      ValuesCons(line, rest, other);
      assert [] + ValuesOf(rest, other) == ValuesOf(rest, other);
    }
  }

  lemma LastCons(v: string, vs: seq<string>)
    ensures forall max: nat, d: nat :: LastNumber([v] + vs, max, d) ==
              LastNumber(vs, max, match ParseUInt(v, max) case Some(n) => n case None => 0)
    ensures forall d :: LastKey([v] + vs, d) == LastKey(vs, FromBase64(v))
    ensures forall d :: LastText([v] + vs, d) == LastText(vs, Some(v))
  {
    hide ParseUInt, FromBase64;
    assert vs != [] ==> ([v] + vs)[|vs|] == vs[|vs| - 1];
  }

  lemma ItemsCons(v: string, vs: seq<string>, before: seq<string>)
    ensures before + ItemsOf([v] + vs) == before + SplitTrim(v, ',') + ItemsOf(vs)
  {
    hide SplitTrim;
    assert ([v] + vs)[1..] == vs;
    ConcatAssoc(before, SplitTrim(v, ','), ItemsOf(vs));
  }

  lemma {:induction false} ServersAppend(a: seq<string>, b: seq<string>)
    ensures Servers(a + b) == Servers(a) + Servers(b)
  {
    hide ParseIp;
    if a == [] {
      assert a + b == b;
    } else {
      assert (a + b)[0] == a[0] && (a + b)[1..] == a[1..] + b;
      ServersAppend(a[1..], b);
      ConcatAssoc(match ParseIp(a[0]) case Some(ip) => [ip] case None => [], Servers(a[1..]), Servers(b));
    }
  }

  lemma {:induction false} DomainsAppend(a: seq<string>, b: seq<string>)
    ensures Domains(a + b) == Domains(a) + Domains(b)
  {
    hide ParseIp;
    if a == [] {
      assert a + b == b;
    } else {
      assert (a + b)[0] == a[0] && (a + b)[1..] == a[1..] + b;
      DomainsAppend(a[1..], b);
      ConcatAssoc(if a[0] == "" || ParseIp(a[0]).Some? then [] else [a[0]], Domains(a[1..]), Domains(b));
    }
  }

  lemma OneTokenSays(i: IfaceDraft, token: string)
    ensures AddDnsToken(i, token) == i.(dns := i.dns + Servers([token]), dnsSearch := i.dnsSearch + Domains([token]))
  {
    EmptyIsNoIp();
    hide ParseIp;
    assert [token][1..] == [];
    assert i.dns + [] == i.dns && i.dnsSearch + [] == i.dnsSearch;
  }

  lemma {:induction false} DnsTokensSay(i: IfaceDraft, tokens: seq<string>)
    ensures AddDnsTokens(i, tokens) == i.(dns := i.dns + Servers(tokens), dnsSearch := i.dnsSearch + Domains(tokens))
    decreases |tokens|
  {
    if tokens == [] {
      assert i.dns + [] == i.dns && i.dnsSearch + [] == i.dnsSearch;
    } else {
      var head, rest := [tokens[0]], tokens[1..];
      OneTokenSays(i, tokens[0]);
      hide AddDnsToken, Servers, Domains;
      DnsTokensSay(AddDnsToken(i, tokens[0]), rest);
      ServersAppend(head, rest);
      DomainsAppend(head, rest);
      assert tokens == head + rest;
      ConcatAssoc(i.dns, Servers(head), Servers(rest));
      ConcatAssoc(i.dnsSearch, Domains(head), Domains(rest));
    }
  }

  lemma EmptyIsNoIp()
    ensures ParseIp("") == None
  {
  }

  lemma DnsLineSays(i: IfaceDraft, value: string, rest: seq<string>)
    ensures var j := AddDnsTokens(i, SplitTrim(value, ','));
            && i.dns + Servers(ItemsOf([value] + rest)) == j.dns + Servers(ItemsOf(rest))
            && i.dnsSearch + Domains(ItemsOf([value] + rest)) == j.dnsSearch + Domains(ItemsOf(rest))
            && j == i.(dns := j.dns, dnsSearch := j.dnsSearch)
  {
    hide SplitTrim, Servers, Domains;
    var tokens := SplitTrim(value, ',');
    assert ([value] + rest)[1..] == rest;
    assert ItemsOf([value] + rest) == tokens + ItemsOf(rest);
    DnsTokensSay(i, tokens);
    ServersAppend(tokens, ItemsOf(rest));
    DomainsAppend(tokens, ItemsOf(rest));
    ConcatAssoc(i.dns, Servers(tokens), Servers(ItemsOf(rest)));
    ConcatAssoc(i.dnsSearch, Domains(tokens), Domains(ItemsOf(rest)));
  }

  const SCALAR_KEYS := {"privatekey", "listenport", "mtu", "fwmark"}
  const HOOK_KEYS := {"preup", "postup", "predown", "postdown"}

  lemma ScalarLineSays(i: IfaceDraft, k: string, v: string, body: seq<string>, rest: seq<string>)
    requires Lower(k) in SCALAR_KEYS && IfaceValueOk(Lower(k), v)
    requires OneKeyMore(Lower(k), v, body, rest)
    ensures InterfaceKv(i, k, v).Ok? && IfaceSays(i, body) == IfaceSays(InterfaceKv(i, k, v).value, rest)
  {
    LastCons(v, ValuesOf(rest, Lower(k)));
    hide ValuesOf, LastNumber, LastKey, ItemsOf, Servers, Domains, SplitTrim, ParseUInt, FromBase64, Lower, AddDnsTokens;
  }

  lemma ListLineSays(i: IfaceDraft, k: string, v: string, body: seq<string>, rest: seq<string>)
    requires Lower(k) == "address" || Lower(k) == "dns"
    requires OneKeyMore(Lower(k), v, body, rest)
    ensures InterfaceKv(i, k, v).Ok? && IfaceSays(i, body) == IfaceSays(InterfaceKv(i, k, v).value, rest)
  {
    var vs := ValuesOf(rest, Lower(k));
    ItemsCons(v, vs, i.addresses);
    DnsLineSays(i, v, vs);
    hide ValuesOf, LastPort, LastWord, LastKey, ItemsOf, Servers, Domains, SplitTrim, ParseUInt, FromBase64, Lower,
         AddDnsTokens;
  }

  lemma HookLineSays(i: IfaceDraft, k: string, v: string, body: seq<string>, rest: seq<string>)
    requires Lower(k) in HOOK_KEYS
    requires OneKeyMore(Lower(k), v, body, rest)
    ensures InterfaceKv(i, k, v).Ok? && IfaceSays(i, body) == IfaceSays(InterfaceKv(i, k, v).value, rest)
  {
    var vs := ValuesOf(rest, Lower(k));
    ConcatAssoc(i.preUp, [v], vs);
    ConcatAssoc(i.postUp, [v], vs);
    ConcatAssoc(i.preDown, [v], vs);
    ConcatAssoc(i.postDown, [v], vs);
    hide ValuesOf, LastPort, LastWord, LastKey, ItemsOf, Servers, Domains, SplitTrim, ParseUInt, FromBase64, Lower,
         AddDnsTokens;
  }

  /** A body that gives one key one more value in front, and the other keys nothing. */
  ghost predicate OneKeyMore(key: string, value: string, body: seq<string>, rest: seq<string>) {
    && ValuesOf(body, key) == [value] + ValuesOf(rest, key)
    && forall other :: other != key ==> ValuesOf(body, other) == ValuesOf(rest, other)
  }

  /** The first line of an interface body and what it leaves to the rest. */
  lemma IfaceSaysCons(i: IfaceDraft, line: string, rest: seq<string>)
    requires IfaceLineOk(line)
    ensures InterfaceKv(i, SplitKv(line).value.0, SplitKv(line).value.1).Ok?
    ensures IfaceSays(i, [line] + rest)
            == IfaceSays(InterfaceKv(i, SplitKv(line).value.0, SplitKv(line).value.1).value, rest)
  {
    var (k, v) := SplitKv(line).value;
    OneKey(line, rest, Lower(k), v);
    hide IfaceSays, InterfaceKv, ValuesOf, SplitKv, Lower;
    if Lower(k) in SCALAR_KEYS {
      ScalarLineSays(i, k, v, [line] + rest, rest);
    } else if Lower(k) in HOOK_KEYS {
      HookLineSays(i, k, v, [line] + rest, rest);
    } else {
      ListLineSays(i, k, v, [line] + rest, rest);
    }
  }

  lemma KeyLineSays(p: PeerDraft, k: string, v: string, body: seq<string>, rest: seq<string>)
    requires Lower(k) in {"publickey", "presharedkey", "persistentkeepalive"} && PeerValueOk(Lower(k), v)
    requires OneKeyMore(Lower(k), v, body, rest)
    ensures PeerKv(p, k, v).Ok? && PeerSays(p, body) == PeerSays(PeerKv(p, k, v).value, rest)
  {
    LastCons(v, ValuesOf(rest, Lower(k)));
    hide ValuesOf, LastNumber, LastKey, LastText, ItemsOf, SplitTrim, ParseUInt, FromBase64, Lower;
  }

  lemma TextLineSays(p: PeerDraft, k: string, v: string, body: seq<string>, rest: seq<string>)
    requires Lower(k) == "endpoint" || Lower(k) == "allowedips"
    requires OneKeyMore(Lower(k), v, body, rest)
    ensures PeerKv(p, k, v).Ok? && PeerSays(p, body) == PeerSays(PeerKv(p, k, v).value, rest)
  {
    LastCons(v, ValuesOf(rest, Lower(k)));
    ItemsCons(v, ValuesOf(rest, Lower(k)), p.allowedIps);
    hide ValuesOf, LastPort, LastKey, LastText, ItemsOf, SplitTrim, ParseUInt, FromBase64, Lower;
  }

  lemma PeerSaysCons(p: PeerDraft, line: string, rest: seq<string>)
    requires PeerLineOk(line)
    ensures PeerKv(p, SplitKv(line).value.0, SplitKv(line).value.1).Ok?
    ensures PeerSays(p, [line] + rest) == PeerSays(PeerKv(p, SplitKv(line).value.0, SplitKv(line).value.1).value, rest)
  {
    var (k, v) := SplitKv(line).value;
    OneKey(line, rest, Lower(k), v);
    hide PeerSays, PeerKv, ValuesOf, SplitKv, Lower;
    if Lower(k) == "endpoint" || Lower(k) == "allowedips" {
      TextLineSays(p, k, v, [line] + rest, rest);
    } else {
      KeyLineSays(p, k, v, [line] + rest, rest);
    }
  }

  lemma NothingSaid(i: IfaceDraft, p: PeerDraft)
    ensures IfaceSays(i, []) == i && PeerSays(p, []) == p
  {
    assert forall s: seq<string> :: s + [] == s;
    assert i.dns + [] == i.dns;
  }

  /** An interface body can be read exactly when each of its lines is a known key with a readable value, and
      then says: list keys all their values in order, the other keys the last one. */
  lemma {:induction false} InterfaceMeans(i: IfaceDraft, body: seq<string>)
    ensures ReadIface(i, body).Some? <==> forall l :: l in body ==> IfaceLineOk(l)
    ensures ReadIface(i, body).Some? ==> ReadIface(i, body).value == IfaceSays(i, body)
    decreases |body|
  {
    hide InterfaceKv, IfaceSays, IfaceValueOk, SplitKv, Lower;
    if body == [] {
      NothingSaid(i, EMPTY_PEER);
    } else {
      assert body == [body[0]] + body[1..] && body[0] in body;
      if SplitKv(body[0]).Some? {
        var (k, v) := SplitKv(body[0]).value;
        InterfaceKvOk(i, k, v);
        if InterfaceKv(i, k, v).Ok? {
          InterfaceMeans(InterfaceKv(i, k, v).value, body[1..]);
          IfaceSaysCons(i, body[0], body[1..]);
        }
      }
    }
  }

  /** The same for a peer body. */
  lemma {:induction false} PeerMeans(p: PeerDraft, body: seq<string>)
    ensures ReadPeer(p, body).Some? <==> forall l :: l in body ==> PeerLineOk(l)
    ensures ReadPeer(p, body).Some? ==> ReadPeer(p, body).value == PeerSays(p, body)
    decreases |body|
  {
    hide PeerKv, PeerSays, PeerValueOk, SplitKv, Lower;
    if body == [] {
      NothingSaid(EMPTY_IFACE, p);
    } else {
      assert body == [body[0]] + body[1..] && body[0] in body;
      if SplitKv(body[0]).Some? {
        var (k, v) := SplitKv(body[0]).value;
        PeerKvOk(p, k, v);
        if PeerKv(p, k, v).Ok? {
          PeerMeans(PeerKv(p, k, v).value, body[1..]);
          PeerSaysCons(p, body[0], body[1..]);
        }
      }
    }
  }

  // ---- The whole text ----

  /** The key-value lines of all `[Interface]` sections together. */
  function IfaceBody(text: string): seq<string> {
    OwnedLines(OfInterface, Lines(text), NoSection, 0)
  }

  /** The key-value lines under the k-th `[Peer]` header. */
  function BodyOfPeer(text: string, k: nat): seq<string> {
    OwnedLines(OfPeer(k), Lines(text), NoSection, 0)
  }

  /** What an accepted text loads as, field by field: list keys collect all their values in order of the lines,
      every other key takes its last value, and absent keys leave the default. */
  lemma LoadedMeans(text: string)
    requires Load(text).Ok?
    ensures var i, body := Load(text).value.iface, IfaceBody(text);
            && Some(i.privateKey) == LastKey(ValuesOf(body, "privatekey"), None)
            && i.listenPort == LastNumber(ValuesOf(body, "listenport"), U16_MAX, 0)
            && i.addresses == ItemsOf(ValuesOf(body, "address"))
            && i.dns == Servers(ItemsOf(ValuesOf(body, "dns")))
            && i.dnsSearch == Domains(ItemsOf(ValuesOf(body, "dns")))
            && i.mtu == LastNumber(ValuesOf(body, "mtu"), U16_MAX, 0)
            && i.fwmark == LastNumber(ValuesOf(body, "fwmark"), U32_MAX, 0)
            && i.preUp == ValuesOf(body, "preup") && i.postUp == ValuesOf(body, "postup")
            && i.preDown == ValuesOf(body, "predown") && i.postDown == ValuesOf(body, "postdown")
    ensures |Load(text).value.peers| == PeerHeaders(Lines(text))
    ensures forall k: nat :: k < |Load(text).value.peers| ==> PeerLoadedAs(Load(text).value.peers[k], BodyOfPeer(text, k))
  {
    AcceptedIff(text);
    InterfaceMeans(EMPTY_IFACE, IfaceBody(text));
    hide Load, Lines, OwnedLines, ReadIface, ReadPeer, NoOrphans, PeerHeaders, ValuesOf, ItemsOf, Servers, Domains,
         LastKey, LastNumber;
    EmptyPrefix(ItemsOf(ValuesOf(IfaceBody(text), "address")));
    forall k: nat | k < |Load(text).value.peers|
      ensures PeerLoadedAs(Load(text).value.peers[k], BodyOfPeer(text, k))
    {
      PeerMeans(EMPTY_PEER, BodyOfPeer(text, k));
      BuiltPeerSays(Load(text).value.peers[k], BodyOfPeer(text, k));
    }
  }

  predicate PeerLoadedAs(p: PeerConfig, body: seq<string>) {
    && p.name == ""
    && Some(p.publicKey) == LastKey(ValuesOf(body, "publickey"), None)
    && p.presharedKey == LastKey(ValuesOf(body, "presharedkey"), None)
    && p.endpoint == LastText(ValuesOf(body, "endpoint"), None)
    && p.allowedIps == ItemsOf(ValuesOf(body, "allowedips"))
    && p.persistentKeepalive == LastNumber(ValuesOf(body, "persistentkeepalive"), U16_MAX, 0)
  }

  lemma EmptyPrefix(s: seq<string>)
    ensures [] + s == s
  {
  }

  lemma BuiltPeerSays(p: PeerConfig, body: seq<string>)
    requires BuildPeer(PeerSays(EMPTY_PEER, body)) == Ok(p)
    ensures PeerLoadedAs(p, body)
  {
    hide ValuesOf, ItemsOf, LastKey, LastText, LastNumber;
    EmptyPrefix(ItemsOf(ValuesOf(body, "allowedips")));
  }

  /** Exactly which texts are accepted, line by line: no key-value line before the first header, every line a
      known key of its section with a readable value, a private key, at least one peer, and for each a public
      key and an allowed IP. */
  lemma AcceptedLinesIff(text: string)
    ensures Load(text).Ok? <==>
            && NoOrphans(Lines(text), NoSection)
            && (forall l :: l in IfaceBody(text) ==> IfaceLineOk(l))
            && ValuesOf(IfaceBody(text), "privatekey") != []
            && PeerHeaders(Lines(text)) > 0
            && forall k: nat :: k < PeerHeaders(Lines(text)) ==> PeerBodyOk(BodyOfPeer(text, k))
  {
    AcceptedIff(text);
    InterfaceSectionIff(text);
    hide Load, Lines, NoOrphans, PeerHeaders, ValuesOf, PeerBodyOk, PeerSection, InterfaceSection, IfaceBody, BodyOfPeer,
         IfaceLineOk, CompletePeer, BuildIface, BuildPeer;
    forall k: nat
      ensures PeerBodyOk(BodyOfPeer(text, k)) <==>
              PeerSection(text, k).Some? && CompletePeer(PeerSection(text, k).value)
    {
      PeerSectionIff(text, k);
    }
  }

  lemma InterfaceSectionIff(text: string)
    ensures InterfaceSection(text).Some? && InterfaceSection(text).value.privateKey.Some? <==>
            (forall l :: l in IfaceBody(text) ==> IfaceLineOk(l)) && ValuesOf(IfaceBody(text), "privatekey") != []
  {
    hide Lines, OwnedLines, ReadIface, ValuesOf, LastKey, IfaceLineOk;
    InterfaceMeans(EMPTY_IFACE, IfaceBody(text));
    if forall l :: l in IfaceBody(text) ==> IfaceLineOk(l) {
      PrivateKeyIff(IfaceBody(text));
    }
  }

  lemma PeerSectionIff(text: string, k: nat)
    ensures PeerBodyOk(BodyOfPeer(text, k)) <==>
            PeerSection(text, k).Some? && CompletePeer(PeerSection(text, k).value)
  {
    hide Lines, OwnedLines, ReadPeer, PeerBodyOk, CompletePeer;
    CompletePeerIff(BodyOfPeer(text, k));
  }

  predicate PeerBodyOk(body: seq<string>) {
    && (forall l :: l in body ==> PeerLineOk(l))
    && ValuesOf(body, "publickey") != [] && ItemsOf(ValuesOf(body, "allowedips")) != []
  }

  lemma CompletePeerIff(body: seq<string>)
    ensures PeerBodyOk(body) <==> ReadPeer(EMPTY_PEER, body).Some? && CompletePeer(ReadPeer(EMPTY_PEER, body).value)
  {
    PeerMeans(EMPTY_PEER, body);
    EmptyPrefix(ItemsOf(ValuesOf(body, "allowedips")));
    if forall l :: l in body ==> PeerLineOk(l) {
      hide ReadPeer, ItemsOf, PeerLineOk;
      LastKeyReadable(body, "publickey");
    }
  }

  lemma PrivateKeyIff(body: seq<string>)
    requires forall l :: l in body ==> IfaceLineOk(l)
    ensures LastKey(ValuesOf(body, "privatekey"), None).Some? <==> ValuesOf(body, "privatekey") != []
  {
    ReadableValues(body, "privatekey");
    KeyTextReads();
    hide ValuesOf, FromBase64, IfaceValueOk, IfaceLineOk;
  }

  lemma KeyTextReads()
    ensures forall v :: IfaceValueOk("privatekey", v) ==> FromBase64(v).Some?
    ensures forall v :: PeerValueOk("publickey", v) ==> FromBase64(v).Some?
  {
    hide FromBase64;
  }

  lemma LastKeyReadable(body: seq<string>, key: string)
    requires key == "publickey" && forall l :: l in body ==> PeerLineOk(l)
    ensures LastKey(ValuesOf(body, key), None).Some? <==> ValuesOf(body, key) != []
  {
    ReadablePeerValues(body, key);
    KeyTextReads();
    hide ValuesOf, FromBase64, PeerValueOk, PeerLineOk;
  }

  lemma {:induction false} ReadableValues(body: seq<string>, key: string)
    requires forall l :: l in body ==> IfaceLineOk(l)
    ensures forall v :: v in ValuesOf(body, key) ==> IfaceValueOk(key, v)
  {
    hide SplitKv, IfaceValueOk, Lower;
    if body == [] {
    } else {
      assert body[0] in body && forall l :: l in body[1..] ==> l in body;
      ReadableValues(body[1..], key);
    }
  }

  lemma {:induction false} ReadablePeerValues(body: seq<string>, key: string)
    requires forall l :: l in body ==> PeerLineOk(l)
    ensures forall v :: v in ValuesOf(body, key) ==> PeerValueOk(key, v)
  {
    hide SplitKv, PeerValueOk, Lower;
    if body == [] {
    } else {
      assert body[0] in body && forall l :: l in body[1..] ==> l in body;
      ReadablePeerValues(body[1..], key);
    }
  }

  // ---- Errors ----

  /** Why a line cannot be read: it has no `=`; or no section is open; or its key is unknown to the section; or
      the value of the key, named in its printed case, cannot be read. */
  lemma ReasonOfBadLine(st: ParseState, raw: string)
    requires Reachable(st) && ParseLine(st, raw).Err?
    ensures var line, e := Trim(raw), ParseLine(st, raw).error;
            if Lacks(line, '=') then e == ExpectedKeyValue
            else if st.section == NoSection then e == OutsideSection
            else exists key, value :: CutsInto(line, key, value) && ReasonFor(st.section, key, value, e)
  {
    SplitsAtFirstEquals(Trim(raw));
    hide Trim, Skipped, IsInterfaceHeader, IsPeerHeader, SplitKv, InterfaceKv, PeerKv, CutsInto, ReasonFor;
    if SplitKv(Trim(raw)).Some? {
      var (key, value) := SplitKv(Trim(raw)).value;
      if st.section == Interface {
        IfaceReason(st.iface, key, value);
      } else if st.section == Peer {
        PeerReason(st.peers[|st.peers| - 1], key, value);
      }
    }
  }

  predicate ReasonFor(section: Section, key: string, value: string, e: ParseReason) {
    match e
    case UnknownInterfaceKey(k) => section == Interface && k == key && Lower(key) !in LIST_KEYS + SCALAR_KEYS
    case UnknownPeerKey(k) => section == Peer && k == key && Lower(key) !in PEER_KEYS
    case BadValue(field) =>
      && Lower(field) == Lower(key)
      && (section == Interface ==> Lower(key) in SCALAR_KEYS && !IfaceValueOk(Lower(key), value))
      && (section == Peer ==> Lower(key) in PEER_KEYS && !PeerValueOk(Lower(key), value))
    case _ => false
  }

  const PEER_KEYS := {"publickey", "presharedkey", "endpoint", "allowedips", "persistentkeepalive"}

  lemma LowerNames()
    ensures Lower("PrivateKey") == "privatekey" && Lower("ListenPort") == "listenport" && Lower("MTU") == "mtu"
    ensures Lower("FwMark") == "fwmark" && Lower("PublicKey") == "publickey" && Lower("PresharedKey") == "presharedkey"
    ensures Lower("PersistentKeepalive") == "persistentkeepalive"
  {
  }

  lemma IfaceReason(i: IfaceDraft, key: string, value: string)
    ensures InterfaceKv(i, key, value).Err? ==> ReasonFor(Interface, key, value, InterfaceKv(i, key, value).error)
  {
    LowerNames();
    hide FromBase64, ParseUInt, SplitTrim, AddDnsTokens, Lower;
  }

  lemma PeerReason(p: PeerDraft, key: string, value: string)
    ensures PeerKv(p, key, value).Err? ==> ReasonFor(Peer, key, value, PeerKv(p, key, value).error)
  {
    LowerNames();
    hide FromBase64, ParseUInt, SplitTrim, Lower;
  }

  /** What a text whose lines all read is refused for: a missing private key before missing public keys, those
      before having no peers, and that before the first peer without an allowed IP. */
  lemma MissingPartNamed(text: string)
    requires ParseLines(START, Lines(text), 0).Ok? && Load(text).Err?
    ensures var e, n := Load(text).error, PeerHeaders(Lines(text));
            if ValuesOf(IfaceBody(text), "privatekey") == [] then e == MissingField("PrivateKey")
            else if exists k: nat :: k < n && ValuesOf(BodyOfPeer(text, k), "publickey") == []
            then e == MissingField("PublicKey")
            else if n == 0 then e == MissingField("peers")
            else && e.NoAllowedIps? && e.peer < n
                 && ItemsOf(ValuesOf(BodyOfPeer(text, e.peer), "allowedips")) == []
                 && forall k: nat :: k < e.peer ==> ItemsOf(ValuesOf(BodyOfPeer(text, k), "allowedips")) != []
  {
    var st := ParseLines(START, Lines(text), 0).value;
    assert Load(text) == Finish(st) by { hide ParseLines, Lines, Finish; }
    hide *;
    DraftsMean(text);
    FinishError(st);
  }

  /** What the builders hold once all lines are read, as far as errors depend on it. */
  lemma DraftsMean(text: string)
    requires ParseLines(START, Lines(text), 0).Ok?
    ensures var st := ParseLines(START, Lines(text), 0).value;
            && |st.peers| == PeerHeaders(Lines(text))
            && (st.iface.privateKey.Some? <==> ValuesOf(IfaceBody(text), "privatekey") != [])
            && forall k: nat :: k < |st.peers| ==>
                 && st.peers[k].name == ""
                 && st.peers[k].allowedIps == ItemsOf(ValuesOf(BodyOfPeer(text, k), "allowedips"))
                 && (st.peers[k].publicKey.Some? <==> ValuesOf(BodyOfPeer(text, k), "publickey") != [])
  {
    hide ParseLines, Lines, OwnedLines, ReadIface, ReadPeer, ValuesOf, ItemsOf, PeerHeaders, IfaceLineOk, LastKey, NoOrphans;
    var st := ParseLines(START, Lines(text), 0).value;
    ParsedBySections(text);
    InterfaceMeans(EMPTY_IFACE, IfaceBody(text));
    PrivateKeyIff(IfaceBody(text));
    forall k: nat | k < |st.peers|
      ensures st.peers[k].name == "" && st.peers[k].allowedIps == ItemsOf(ValuesOf(BodyOfPeer(text, k), "allowedips"))
      ensures st.peers[k].publicKey.Some? <==> ValuesOf(BodyOfPeer(text, k), "publickey") != []
    {
      PeerDraftSays(BodyOfPeer(text, k), st.peers[k]);
    }
  }

  lemma PeerDraftSays(body: seq<string>, p: PeerDraft)
    requires ReadPeer(EMPTY_PEER, body) == Some(p)
    ensures p.name == "" && p.allowedIps == ItemsOf(ValuesOf(body, "allowedips"))
    ensures p.publicKey.Some? <==> ValuesOf(body, "publickey") != []
  {
    PeerMeans(EMPTY_PEER, body);
    LastKeyReadable(body, "publickey");
    EmptyPrefix(ItemsOf(ValuesOf(body, "allowedips")));
  }

  lemma {:induction false} BuildPeersError(ps: seq<PeerDraft>)
    ensures BuildPeers(ps).Err? ==> BuildPeers(ps).error == MissingField("PublicKey")
  {
    if ps == [] {
    } else {
      BuildPeersError(ps[1..]);
    }
  }

  lemma FinishError(st: ParseState)
    requires Finish(st).Err? && forall k :: 0 <= k < |st.peers| ==> st.peers[k].name == ""
    ensures var e := Finish(st).error;
            if st.iface.privateKey.None? then e == MissingField("PrivateKey")
            else if exists k :: 0 <= k < |st.peers| && st.peers[k].publicKey.None? then e == MissingField("PublicKey")
            else if st.peers == [] then e == MissingField("peers")
            else && e.NoAllowedIps? && e.peer < |st.peers| && st.peers[e.peer].allowedIps == []
                 && forall k :: 0 <= k < e.peer ==> st.peers[k].allowedIps != []
  {
    BuildPeersError(st.peers);
    var built := BuildPeers(st.peers);
    if built.Ok? {
      assert forall k :: 0 <= k < |st.peers| ==> BuildPeer(st.peers[k]) == Ok(built.value[k]);
      if st.peers != [] && BuildIface(st.iface).Ok? {
        FirstFault(built.value, 0);
      }
    }
    hide BuildPeers, PeersFault;
  }

  // ---- What is printed ----

  lemma {:induction false} ValuesAppend(a: seq<string>, b: seq<string>, key: string)
    ensures ValuesOf(a + b, key) == ValuesOf(a, key) + ValuesOf(b, key)
  {
    hide ValueFor;
    if a == [] {
      assert a + b == b;
    } else {
      assert (a + b)[0] == a[0] && (a + b)[1..] == a[1..] + b;
      ValuesAppend(a[1..], b, key);
      ConcatAssoc(ValueFor(a[0], key), ValuesOf(a[1..], key), ValuesOf(b, key));
    }
  }

  lemma TrimAllAppend(a: seq<string>, b: seq<string>)
    ensures TrimAll(a + b) == TrimAll(a) + TrimAll(b)
  {
    hide Trim;
    assert forall i :: 0 <= i < |a + b| ==> TrimAll(a + b)[i] == (TrimAll(a) + TrimAll(b))[i];
  }

  /** The values the printed lines of one key give to a key. */
  lemma {:induction false} KeyedValues(name: string, values: seq<string>, key: string)
    requires KeyWord(name)
    ensures ValuesOf(TrimAll(Keyed(name, values)), key) == if Lower(name) == key then TrimAll(values) else []
    decreases |values|
  {
    hide Trim, Lower, SplitKv, KeyWord;
    if values == [] {
    } else {
      var lines, rest := TrimAll(Keyed(name, values)), Keyed(name, values[1..]);
      KeyedLineSplits(name, values[0]);
      assert lines[1..] == TrimAll(rest);
      assert lines[0] == Trim(name + " = " + values[0]);
      KeyedValues(name, values[1..], key);
    }
  }

  function IfNonZero(n: nat): seq<string> {
    if n == 0 then [] else [ShowNat(n)]
  }

  function AsList(items: seq<string>): seq<string> {
    if items == [] then [] else [Join(items, ", ")]
  }

  function Optional(v: Option<string>): seq<string> {
    if v.Some? then [v.value] else []
  }

  function OptionalKey(k: Option<Key>): seq<string> {
    if k.Some? then [ToBase64(k.value)] else []
  }

  /** What an interface section should print for a key. */
  function ToPrint(i: InterfaceConfig, key: string): seq<string> {
    if key == "privatekey" then [ToBase64(i.privateKey)]
    else if key == "listenport" then IfNonZero(i.listenPort)
    else if key == "address" then i.addresses
    else if key == "dns" then AsList(ShowIps(i.dns) + i.dnsSearch)
    else if key == "mtu" then IfNonZero(i.mtu)
    else if key == "preup" then i.preUp
    else if key == "postup" then i.postUp
    else if key == "predown" then i.preDown
    else if key == "postdown" then i.postDown
    else []
  }

  function ToPrintForPeer(p: PeerConfig, key: string): seq<string> {
    if key == "publickey" then [ToBase64(p.publicKey)]
    else if key == "presharedkey" then OptionalKey(p.presharedKey)
    else if key == "endpoint" then Optional(p.endpoint)
    else if key == "allowedips" then AsList(p.allowedIps)
    else if key == "persistentkeepalive" then IfNonZero(p.persistentKeepalive)
    else []
  }

  /** What the lines of one name give to a key. */
  function Part(name: string, values: seq<string>, key: string): seq<string> {
    if Lower(name) == key then TrimAll(values) else []
  }

  /** One more piece of a printed section. */
  lemma PieceAdded(lines: seq<string>, name: string, values: seq<string>, key: string)
    requires KeyWord(name)
    ensures ValuesOf(TrimAll(lines + Keyed(name, values)), key) == ValuesOf(TrimAll(lines), key) + Part(name, values, key)
  {
    KeyedValues(name, values, key);
    hide *;
    TrimAllAppend(lines, Keyed(name, values));
    ValuesAppend(TrimAll(lines), TrimAll(Keyed(name, values)), key);
  }

  lemma PrintedNames()
    ensures KeyWord("PrivateKey") && KeyWord("ListenPort") && KeyWord("Address") && KeyWord("DNS") && KeyWord("MTU")
    ensures KeyWord("PreUp") && KeyWord("PostUp") && KeyWord("PreDown") && KeyWord("PostDown")
  {
  }

  lemma LowerListNames()
    ensures Lower("Address") == "address" && Lower("DNS") == "dns"
    ensures Lower("PreUp") == "preup" && Lower("PostUp") == "postup"
    ensures Lower("PreDown") == "predown" && Lower("PostDown") == "postdown"
  {
  }

  lemma PrintedPeerNames()
    ensures KeyWord("PublicKey") && KeyWord("PresharedKey") && KeyWord("Endpoint") && KeyWord("AllowedIPs")
    ensures KeyWord("PersistentKeepalive") && Lower("Endpoint") == "endpoint" && Lower("AllowedIPs") == "allowedips"
  {
  }

  /** The lines written for a number, a list or an option are lines of one key. */
  lemma LinesAreKeyed(key: string, n: nat, items: seq<string>, v: Option<string>)
    ensures NumberLine(key, n) == Keyed(key, IfNonZero(n))
    ensures ListLine(key, items) == Keyed(key, AsList(items))
    ensures OptionLine(key, v) == Keyed(key, Optional(v))
  {
    assert Keyed(key, []) == [];
  }

  lemma InterfaceParts(i: InterfaceConfig, key: string)
    ensures ValuesOf(TrimAll(IfaceLines(i)), key) ==
            Part("PrivateKey", [ToBase64(i.privateKey)], key) + Part("ListenPort", IfNonZero(i.listenPort), key)
            + Part("Address", i.addresses, key) + Part("DNS", AsList(ShowIps(i.dns) + i.dnsSearch), key)
            + Part("MTU", IfNonZero(i.mtu), key) + Part("PreUp", i.preUp, key) + Part("PostUp", i.postUp, key)
            + Part("PreDown", i.preDown, key) + Part("PostDown", i.postDown, key)
  {
    PrintedNames();
    var l0 := Keyed("PrivateKey", [ToBase64(i.privateKey)]);
    var l1 := l0 + NumberLine("ListenPort", i.listenPort);
    var l2 := l1 + Keyed("Address", i.addresses);
    var l3 := l2 + ListLine("DNS", ShowIps(i.dns) + i.dnsSearch);
    var l4 := l3 + NumberLine("MTU", i.mtu);
    var l5 := l4 + Keyed("PreUp", i.preUp);
    var l6 := l5 + Keyed("PostUp", i.postUp);
    var l7 := l6 + Keyed("PreDown", i.preDown);
    assert IfaceLines(i) == l7 + Keyed("PostDown", i.postDown);
    hide *;
    FirstPiece("PrivateKey", [ToBase64(i.privateKey)], key);
    LinesAreKeyed("ListenPort", i.listenPort, [], None);
    PieceAdded(l0, "ListenPort", IfNonZero(i.listenPort), key);
    PieceAdded(l1, "Address", i.addresses, key);
    LinesAreKeyed("DNS", 0, ShowIps(i.dns) + i.dnsSearch, None);
    PieceAdded(l2, "DNS", AsList(ShowIps(i.dns) + i.dnsSearch), key);
    LinesAreKeyed("MTU", i.mtu, [], None);
    PieceAdded(l3, "MTU", IfNonZero(i.mtu), key);
    PieceAdded(l4, "PreUp", i.preUp, key);
    PieceAdded(l5, "PostUp", i.postUp, key);
    PieceAdded(l6, "PreDown", i.preDown, key);
    PieceAdded(l7, "PostDown", i.postDown, key);
  }

  lemma FirstPiece(name: string, values: seq<string>, key: string)
    requires KeyWord(name)
    ensures ValuesOf(TrimAll(Keyed(name, values)), key) == Part(name, values, key)
  {
    KeyedValues(name, values, key);
  }

  /** The printed interface section gives each key its setting and nothing else: numbers only when they are not
      zero, one line for each address and hook, one `DNS` line for servers and domains together, and never a
      firewall mark. */
  lemma PrintedInterface(i: InterfaceConfig, key: string)
    ensures ValuesOf(TrimAll(IfaceLines(i)), key) == TrimAll(ToPrint(i, key))
  {
    InterfaceParts(i, key);
    LowerNames();
    LowerListNames();
    hide ValuesOf, IfaceLines, TrimAll, Lower, KeyWord, ToBase64, ShowIps, IfNonZero, AsList;
    assert TrimAll([]) == [];
  }

  lemma PeerParts(p: PeerConfig, key: string)
    ensures ValuesOf(TrimAll(PeerBody(p)), key) ==
            Part("PublicKey", [ToBase64(p.publicKey)], key) + Part("PresharedKey", OptionalKey(p.presharedKey), key)
            + Part("Endpoint", Optional(p.endpoint), key) + Part("AllowedIPs", AsList(p.allowedIps), key)
            + Part("PersistentKeepalive", IfNonZero(p.persistentKeepalive), key)
  {
    PrintedPeerNames();
    var l0 := Keyed("PublicKey", [ToBase64(p.publicKey)]);
    var l1 := l0 + OptionLine("PresharedKey", ShowKey(p.presharedKey));
    var l2 := l1 + OptionLine("Endpoint", p.endpoint);
    var l3 := l2 + ListLine("AllowedIPs", p.allowedIps);
    assert PeerBody(p) == l3 + NumberLine("PersistentKeepalive", p.persistentKeepalive);
    assert Optional(ShowKey(p.presharedKey)) == OptionalKey(p.presharedKey);
    hide *;
    FirstPiece("PublicKey", [ToBase64(p.publicKey)], key);
    LinesAreKeyed("PresharedKey", 0, [], ShowKey(p.presharedKey));
    PieceAdded(l0, "PresharedKey", OptionalKey(p.presharedKey), key);
    LinesAreKeyed("Endpoint", 0, [], p.endpoint);
    PieceAdded(l1, "Endpoint", Optional(p.endpoint), key);
    LinesAreKeyed("AllowedIPs", 0, p.allowedIps, None);
    PieceAdded(l2, "AllowedIPs", AsList(p.allowedIps), key);
    LinesAreKeyed("PersistentKeepalive", p.persistentKeepalive, [], None);
    PieceAdded(l3, "PersistentKeepalive", IfNonZero(p.persistentKeepalive), key);
  }

  /** The same for a peer section; the name goes into a comment. */
  lemma PrintedPeer(p: PeerConfig, key: string)
    ensures ValuesOf(TrimAll(PeerBody(p)), key) == TrimAll(ToPrintForPeer(p, key))
  {
    PeerParts(p, key);
    LowerNames();
    PrintedPeerNames();
    hide ValuesOf, PeerBody, TrimAll, Lower, KeyWord, ToBase64, IfNonZero, AsList, Optional, OptionalKey;
    assert TrimAll([]) == [];
  }

  function Setting(key: string, value: string): string {
    key + " = " + value
  }

  /** A whole configuration as it is printed, in the order of the lines. */
  lemma ExportExample(k: Key)
    ensures var iface := InterfaceConfig(k, 5, ["10.0.0.2/24", "fd00::2/64"], [], ["corp"], 8, 7, ["a"], ["b"], ["c"], ["d", "e"]);
            var office := PeerConfig("office", k, Some(k), Some("h:1"), ["0.0.0.0/0"], 9);
            var plain := PeerConfig("", k, None, None, ["10.0.0.0/8"], 0);
            Export(WgConfig(iface, [office, plain])) == Unlines(
              ["[Interface]"] + ExampleInterfaceLines(k)
              + ["", "[Peer]", "# Name = " + "office", Setting("PublicKey", ToBase64(k)),
                 Setting("PresharedKey", ToBase64(k)), Setting("Endpoint", "h:1"), Setting("AllowedIPs", "0.0.0.0/0"),
                 Setting("PersistentKeepalive", "9")]
              + ["", "[Peer]", Setting("PublicKey", ToBase64(k)), Setting("AllowedIPs", "10.0.0.0/8")])
  {
    var office := PeerConfig("office", k, Some(k), Some("h:1"), ["0.0.0.0/0"], 9);
    var plain := PeerConfig("", k, None, None, ["10.0.0.0/8"], 0);
    ExampleInterface(k);
    ExamplePeers(k);
    TwoPeers(office, plain);
    hide PeerLines, IfaceLines, AllPeerLines, Unlines, ExampleInterfaceLines, Setting;
    ConcatAssoc(["[Interface]"] + ExampleInterfaceLines(k), PeerLines(office), PeerLines(plain));
  }

  lemma TwoPeers(p: PeerConfig, q: PeerConfig)
    ensures AllPeerLines([p, q]) == PeerLines(p) + PeerLines(q)
  {
    hide PeerLines;
    assert [p, q][1..] == [q] && [q][1..] == [];
    assert AllPeerLines([q]) == PeerLines(q) + AllPeerLines([]);
  }

  function ExampleInterfaceLines(k: Key): seq<string> {
    [Setting("PrivateKey", ToBase64(k)), Setting("ListenPort", "5"), Setting("Address", "10.0.0.2/24"),
     Setting("Address", "fd00::2/64"), Setting("DNS", "corp"), Setting("MTU", "8"), Setting("PreUp", "a"),
     Setting("PostUp", "b"), Setting("PreDown", "c"), Setting("PostDown", "d"), Setting("PostDown", "e")]
  }

  lemma ExampleInterface(k: Key)
    ensures IfaceLines(InterfaceConfig(k, 5, ["10.0.0.2/24", "fd00::2/64"], [], ["corp"], 8, 7, ["a"], ["b"], ["c"], ["d", "e"]))
            == ExampleInterfaceLines(k)
  {
    hide ToBase64;
    assert ShowNat(5) == "5" && ShowNat(8) == "8";
    assert ShowIps([]) + ["corp"] == ["corp"];
  }

  lemma ExamplePeers(k: Key)
    ensures PeerLines(PeerConfig("office", k, Some(k), Some("h:1"), ["0.0.0.0/0"], 9)) ==
              ["", "[Peer]", "# Name = " + "office", Setting("PublicKey", ToBase64(k)),
               Setting("PresharedKey", ToBase64(k)), Setting("Endpoint", "h:1"), Setting("AllowedIPs", "0.0.0.0/0"),
               Setting("PersistentKeepalive", "9")]
    ensures PeerLines(PeerConfig("", k, None, None, ["10.0.0.0/8"], 0)) ==
              ["", "[Peer]", Setting("PublicKey", ToBase64(k)), Setting("AllowedIPs", "10.0.0.0/8")]
  {
    hide ToBase64;
    assert ShowNat(9) == "9";
  }
}

/** The wg-quick parser and printer as functions (config/wg_quick.rs).  The loops that compute
    them are in WgQuickLoops; what they promise is in WgQuickRoundTrip and WgQuickSections. */
module WgQuick {
  import opened Wrappers
  import opened Text
  import opened Decimal
  import opened IpAddress
  import opened Base64Key
  import opened Config

  datatype Section = NoSection | Interface | Peer

  /** What the interface builder holds. */
  datatype IfaceDraft = IfaceDraft(
    privateKey: Option<Key>,
    listenPort: Port,
    addresses: seq<string>,
    dns: seq<IpAddr>,
    dnsSearch: seq<string>,
    mtu: Port,
    fwmark: Word,
    preUp: seq<string>,
    postUp: seq<string>,
    preDown: seq<string>,
    postDown: seq<string>)

  /** What one peer builder holds.  No key ever sets the name. */
  datatype PeerDraft = PeerDraft(
    name: string,
    publicKey: Option<Key>,
    presharedKey: Option<Key>,
    endpoint: Option<string>,
    allowedIps: seq<string>,
    persistentKeepalive: Port)

  const EMPTY_IFACE := IfaceDraft(None, 0, [], [], [], 0, 0, [], [], [], [])
  const EMPTY_PEER := PeerDraft("", None, None, None, [], 0)

  datatype ParseState = ParseState(section: Section, iface: IfaceDraft, peers: seq<PeerDraft>)

  const START := ParseState(NoSection, EMPTY_IFACE, [])

  // ---- One line ----

  predicate Skipped(line: string) {
    line == "" || line[0] == '#' || line[0] == ';'
  }

  /** Split on the first `=`, trimming both sides. */
  function SplitKv(line: string): Option<(string, string)> {
    var n := First(line, '=');
    if n == |line| then None else Some((Trim(line[..n]), Trim(line[n + 1..])))
  }

  /** The `DNS` tokens in order: empty ones skipped, addresses to `dns`, the rest to `dnsSearch`. */
  function AddDnsTokens(i: IfaceDraft, tokens: seq<string>): IfaceDraft
    decreases |tokens|
  {
    if tokens == [] then i else AddDnsTokens(AddDnsToken(i, tokens[0]), tokens[1..])
  }

  function AddDnsToken(i: IfaceDraft, token: string): IfaceDraft {
    if token == "" then i else
    match ParseIp(token)
    case Some(ip) => i.(dns := i.dns + [ip])
    case None => i.(dnsSearch := i.dnsSearch + [token])
  }

  function InterfaceKv(i: IfaceDraft, key: string, value: string): Result<IfaceDraft, ParseReason> {
    match Lower(key)
    case "privatekey" => (match FromBase64(value)
                          case Some(k) => Ok(i.(privateKey := Some(k)))
                          case None => Err(BadValue("PrivateKey")))
    case "listenport" => (match ParseUInt(value, U16_MAX)
                          case Some(n) => Ok(i.(listenPort := n))
                          case None => Err(BadValue("ListenPort")))
    case "address" => Ok(i.(addresses := i.addresses + SplitTrim(value, ',')))
    case "dns" => Ok(AddDnsTokens(i, SplitTrim(value, ',')))
    case "mtu" => (match ParseUInt(value, U16_MAX)
                   case Some(n) => Ok(i.(mtu := n))
                   case None => Err(BadValue("MTU")))
    case "fwmark" => (match ParseUInt(value, U32_MAX)
                      case Some(n) => Ok(i.(fwmark := n))
                      case None => Err(BadValue("FwMark")))
    case "preup" => Ok(i.(preUp := i.preUp + [value]))
    case "postup" => Ok(i.(postUp := i.postUp + [value]))
    case "predown" => Ok(i.(preDown := i.preDown + [value]))
    case "postdown" => Ok(i.(postDown := i.postDown + [value]))
    case _ => Err(UnknownInterfaceKey(key))
  }

  function PeerKv(p: PeerDraft, key: string, value: string): Result<PeerDraft, ParseReason> {
    match Lower(key)
    case "publickey" => (match FromBase64(value)
                         case Some(k) => Ok(p.(publicKey := Some(k)))
                         case None => Err(BadValue("PublicKey")))
    case "presharedkey" => (match FromBase64(value)
                            case Some(k) => Ok(p.(presharedKey := Some(k)))
                            case None => Err(BadValue("PresharedKey")))
    case "endpoint" => Ok(p.(endpoint := Some(value)))
    case "allowedips" => Ok(p.(allowedIps := p.allowedIps + SplitTrim(value, ',')))
    case "persistentkeepalive" => (match ParseUInt(value, U16_MAX)
                                   case Some(n) => Ok(p.(persistentKeepalive := n))
                                   case None => Err(BadValue("PersistentKeepalive")))
    case _ => Err(UnknownPeerKey(key))
  }

  /** In a peer section there is a peer to write to: the `unreachable!` arm is never taken. */
  predicate Reachable(st: ParseState) {
    st.section == Peer ==> st.peers != []
  }

  function KeyValueLine(st: ParseState, line: string): (r: Result<ParseState, ParseReason>)
    requires Reachable(st)
    ensures r.Ok? ==> Reachable(r.value) && |r.value.peers| == |st.peers|
  {
    match SplitKv(line)
    case None => Err(ExpectedKeyValue)
    case Some((key, value)) =>
      match st.section
      case NoSection => Err(OutsideSection)
      case Interface => (match InterfaceKv(st.iface, key, value)
                         case Ok(i) => Ok(st.(iface := i))
                         case Err(e) => Err(e))
      case Peer => (match PeerKv(st.peers[|st.peers| - 1], key, value)
                    case Ok(p) => Ok(st.(peers := st.peers[|st.peers| - 1 := p]))
                    case Err(e) => Err(e))
  }

  predicate IsInterfaceHeader(line: string) {
    Lower(line) == "[interface]"
  }

  predicate IsPeerHeader(line: string) {
    Lower(line) == "[peer]"
  }

  /** One pass of the line loop. */
  function ParseLine(st: ParseState, raw: string): (r: Result<ParseState, ParseReason>)
    requires Reachable(st)
    ensures r.Ok? ==> Reachable(r.value)
  {
    var line := Trim(raw);
    if Skipped(line) then Ok(st)
    else if IsInterfaceHeader(line) then Ok(st.(section := Interface))
    else if IsPeerHeader(line) then Ok(st.(section := Peer, peers := st.peers + [EMPTY_PEER]))
    else KeyValueLine(st, line)
  }

  // ---- The whole text ----

  /** The line loop from a given state; `done` lines came before. */
  function ParseLines(st: ParseState, lines: seq<string>, done: nat): (r: Result<ParseState, ConfigError>)
    requires Reachable(st)
    ensures r.Ok? ==> Reachable(r.value)
    decreases |lines|
  {
    if lines == [] then Ok(st) else
    match ParseLine(st, lines[0])
    case Ok(next) => ParseLines(next, lines[1..], done + 1)
    case Err(e) => Err(WgQuickParse(done + 1, e))
  }

  function BuildIface(i: IfaceDraft): Result<InterfaceConfig, ConfigError> {
    match i.privateKey
    case None => Err(MissingField("PrivateKey"))
    case Some(k) => Ok(InterfaceConfig(k, i.listenPort, i.addresses, i.dns, i.dnsSearch, i.mtu, i.fwmark,
                                       i.preUp, i.postUp, i.preDown, i.postDown))
  }

  function BuildPeer(p: PeerDraft): Result<PeerConfig, ConfigError> {
    match p.publicKey
    case None => Err(MissingField("PublicKey"))
    case Some(k) => Ok(PeerConfig(p.name, k, p.presharedKey, p.endpoint, p.allowedIps, p.persistentKeepalive))
  }

  /** The peers in order; the first one without a key is the error. */
  function BuildPeers(ps: seq<PeerDraft>): (r: Result<seq<PeerConfig>, ConfigError>)
    ensures r.Ok? <==> forall i :: 0 <= i < |ps| ==> BuildPeer(ps[i]).Ok?
    ensures r.Ok? ==> |r.value| == |ps| && forall i :: 0 <= i < |ps| ==> BuildPeer(ps[i]) == Ok(r.value[i])
  {
    if ps == [] then Ok([]) else
    match BuildPeer(ps[0])
    case Err(e) => Err(e)
    case Ok(p) => (match BuildPeers(ps[1..])
                   case Err(e) => Err(e)
                   case Ok(rest) => Ok([p] + rest))
  }

  /** The two `build` steps and the final `validate`. */
  function Finish(st: ParseState): Result<WgConfig, ConfigError> {
    match BuildIface(st.iface)
    case Err(e) => Err(e)
    case Ok(iface) =>
      match BuildPeers(st.peers)
      case Err(e) => Err(e)
      case Ok(peers) =>
        match Validate(WgConfig(iface, peers))
        case Err(e) => Err(e)
        case Ok(_) => Ok(WgConfig(iface, peers))
  }

  /** `load_from_str`. */
  function Load(text: string): Result<WgConfig, ConfigError> {
    match ParseLines(START, Lines(text), 0)
    case Err(e) => Err(e)
    case Ok(st) => Finish(st)
  }

  // ---- The printer ----

  function Keyed(key: string, values: seq<string>): (r: seq<string>)
    ensures |r| == |values|
    ensures forall i :: 0 <= i < |values| ==> r[i] == key + " = " + values[i]
  {
    seq(|values|, i requires 0 <= i < |values| => key + " = " + values[i])
  }

  function NumberLine(key: string, n: nat): seq<string> {
    if n == 0 then [] else Keyed(key, [ShowNat(n)])
  }

  function ListLine(key: string, items: seq<string>): seq<string> {
    if items == [] then [] else Keyed(key, [Join(items, ", ")])
  }

  function IfaceLines(i: InterfaceConfig): seq<string> {
    Keyed("PrivateKey", [ToBase64(i.privateKey)])
    + NumberLine("ListenPort", i.listenPort)
    + Keyed("Address", i.addresses)
    + ListLine("DNS", ShowIps(i.dns) + i.dnsSearch)
    + NumberLine("MTU", i.mtu)
    + Keyed("PreUp", i.preUp)
    + Keyed("PostUp", i.postUp)
    + Keyed("PreDown", i.preDown)
    + Keyed("PostDown", i.postDown)
  }

  function OptionLine(key: string, v: Option<string>): seq<string> {
    match v
    case None => []
    case Some(s) => Keyed(key, [s])
  }

  function ShowKey(k: Option<Key>): Option<string> {
    match k
    case None => None
    case Some(v) => Some(ToBase64(v))
  }

  function PeerBody(p: PeerConfig): seq<string> {
    Keyed("PublicKey", [ToBase64(p.publicKey)])
    + OptionLine("PresharedKey", ShowKey(p.presharedKey))
    + OptionLine("Endpoint", p.endpoint)
    + ListLine("AllowedIPs", p.allowedIps)
    + NumberLine("PersistentKeepalive", p.persistentKeepalive)
  }

  function NameLine(name: string): seq<string> {
    if name == "" then [] else ["# Name = " + name]
  }

  function PeerLines(p: PeerConfig): seq<string> {
    ["", "[Peer]"] + NameLine(p.name) + PeerBody(p)
  }

  function AllPeerLines(ps: seq<PeerConfig>): seq<string> {
    if ps == [] then [] else PeerLines(ps[0]) + AllPeerLines(ps[1..])
  }

  function ExportLines(c: WgConfig): seq<string> {
    ["[Interface]"] + IfaceLines(c.iface) + AllPeerLines(c.peers)
  }

  /** `export_to_string`. */
  function Export(c: WgConfig): string {
    Unlines(ExportLines(c))
  }
}

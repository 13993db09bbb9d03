/** The configuration types and their validation (config/mod.rs). */
module Config {
  import opened Wrappers
  import opened Text
  import opened Decimal
  import opened IpAddress
  import opened Base64Key

  type Port = x: int | 0 <= x <= U16_MAX
  type Word = x: int | 0 <= x <= U32_MAX

  datatype InterfaceConfig = InterfaceConfig(
    privateKey: Key,
    listenPort: Port,
    addresses: seq<string>,
    dns: seq<IpAddr>,
    dnsSearch: seq<string>,
    mtu: Port,
    fwmark: Word,
    preUp: seq<string>,
    postUp: seq<string>,
    preDown: seq<string>,
    postDown: seq<string>)

  datatype PeerConfig = PeerConfig(
    name: string,
    publicKey: Key,
    presharedKey: Option<Key>,
    endpoint: Option<string>,
    allowedIps: seq<string>,
    persistentKeepalive: Port)

  datatype WgConfig = WgConfig(iface: InterfaceConfig, peers: seq<PeerConfig>)

  const MAX_NAME_LEN := 64

  datatype NameError = NameEmpty | NameTooLong(len: nat) | NameBadChar(c: char)

  /** Error values; free-text reasons are kept as structured values. */
  datatype ConfigError =
    | WgQuickParse(line: nat, reason: ParseReason)
    | MissingField(field: string)
    | BadPeerName(peer: nat, why: NameError)
    | NoAllowedIps(peer: nat)

  datatype ParseReason =
    | ExpectedKeyValue
    | OutsideSection
    | BadValue(field: string)
    | UnknownInterfaceKey(key: string)
    | UnknownPeerKey(key: string)

  predicate NameChar(c: char) {
    'a' <= c <= 'z' || 'A' <= c <= 'Z' || '0' <= c <= '9' || c == '-' || c == '_'
  }

  function FirstBadChar(s: string): (r: Option<char>)
    ensures r.None? <==> forall i :: 0 <= i < |s| ==> NameChar(s[i])
    ensures r.Some? ==> r.value in s && !NameChar(r.value)
  {
    if s == "" then None else if !NameChar(s[0]) then Some(s[0]) else FirstBadChar(s[1..])
  }

  function ValidateName(name: string): Result<(), NameError> {
    if name == "" then Err(NameEmpty)
    else if Utf8Len(name) > MAX_NAME_LEN then Err(NameTooLong(Utf8Len(name)))
    else match FirstBadChar(name)
         case Some(c) => Err(NameBadChar(c))
         case None => Ok(())
  }

  /** The first error of one peer, if any. */
  function PeerFault(p: PeerConfig, i: nat): Option<ConfigError> {
    if p.name != "" && ValidateName(p.name).Err? then Some(BadPeerName(i, ValidateName(p.name).error))
    else if p.allowedIps == [] then Some(NoAllowedIps(i))
    else None
  }

  function PeersFault(peers: seq<PeerConfig>, i: nat): Option<ConfigError>
    requires i <= |peers|
    decreases |peers| - i
  {
    if i == |peers| then None
    else if PeerFault(peers[i], i).Some? then PeerFault(peers[i], i)
    else PeersFault(peers, i + 1)
  }

  /** `WgConfig::validate`: the first error in peer order. */
  function Validate(c: WgConfig): Result<(), ConfigError> {
    if c.peers == [] then Err(MissingField("peers"))
    else match PeersFault(c.peers, 0)
         case Some(e) => Err(e)
         case None => Ok(())
  }

  predicate GoodName(name: string) {
    name == "" || ValidateName(name).Ok?
  }

  lemma {:induction false} PeersFaultNone(peers: seq<PeerConfig>, i: nat)
    requires i <= |peers|
    ensures PeersFault(peers, i).None? <==>
            forall k :: i <= k < |peers| ==> GoodName(peers[k].name) && peers[k].allowedIps != []
    decreases |peers| - i
  {
    if i == |peers| {
    } else {
      PeersFaultNone(peers, i + 1);
    }
  }

  /** The error reported is the one of the first faulty peer, its name before its allowed IPs. */
  lemma {:induction false} FirstFault(peers: seq<PeerConfig>, i: nat)
    requires i <= |peers| && PeersFault(peers, i).Some?
    ensures exists k :: i <= k < |peers| && FaultAt(peers, i, k, PeersFault(peers, i).value)
    decreases |peers| - i
  {
    if i == |peers| {
    } else if PeerFault(peers[i], i).Some? {
      assert FaultAt(peers, i, i, PeersFault(peers, i).value);
    } else {
      FirstFault(peers, i + 1);
      var k :| i + 1 <= k < |peers| && FaultAt(peers, i + 1, k, PeersFault(peers, i + 1).value);
      assert FaultAt(peers, i, k, PeersFault(peers, i).value);
    }
  }

  /** Peer `k` is the first one from `i` on with a fault, and `e` says which. */
  predicate FaultAt(peers: seq<PeerConfig>, i: nat, k: nat, e: ConfigError)
    requires i <= k < |peers|
  {
    && (forall j :: i <= j < k ==> GoodName(peers[j].name) && peers[j].allowedIps != [])
    && if GoodName(peers[k].name) then peers[k].allowedIps == [] && e == NoAllowedIps(k)
       else e == BadPeerName(k, ValidateName(peers[k].name).error)
  }

  /** What `validate` reports: having no peers, or the first faulty peer. */
  lemma ValidateReports(c: WgConfig)
    requires Validate(c).Err?
    ensures if c.peers == [] then Validate(c).error == MissingField("peers")
            else exists k :: 0 <= k < |c.peers| && FaultAt(c.peers, 0, k, Validate(c).error)
  {
    if c.peers != [] {
      FirstFault(c.peers, 0);
    }
  }

  /** `validate` accepts exactly the configurations with a peer, whose peers all have a usable
      name (or none) and at least one allowed IP. */
  lemma ValidateIff(c: WgConfig)
    ensures Validate(c).Ok? <==>
            c.peers != [] && forall k :: 0 <= k < |c.peers| ==> GoodName(c.peers[k].name) && c.peers[k].allowedIps != []
  {
    PeersFaultNone(c.peers, 0);
  }

  /** What `validate_name` promises: a non-empty name of at most 64 safe characters. */
  lemma NameIsSafe(name: string)
    ensures ValidateName(name).Ok? <==>
            0 < |name| <= MAX_NAME_LEN && forall i :: 0 <= i < |name| ==> NameChar(name[i])
  {
    if forall i :: 0 <= i < |name| ==> NameChar(name[i]) {
      AsciiLen(name);
    }
  }

  /** Why a name is refused: it is empty; or longer than 64 bytes, the length being reported; or it has an unsafe
      character, the first one being reported. */
  lemma NameRefusedFor(name: string)
    requires ValidateName(name).Err?
    ensures match ValidateName(name).error
            case NameEmpty => name == ""
            case NameTooLong(len) => len == Utf8Len(name) > 64
            case NameBadChar(c) =>
              && 0 < Utf8Len(name) <= 64
              && exists i :: 0 <= i < |name| && name[i] == c && !NameChar(c) && forall j :: 0 <= j < i ==> NameChar(name[j])
  {
    FirstBadCharIsFirst(name);
  }

  lemma {:induction false} FirstBadCharIsFirst(s: string)
    ensures FirstBadChar(s).Some? ==>
              exists i :: 0 <= i < |s| && s[i] == FirstBadChar(s).value && !NameChar(s[i])
                          && forall j :: 0 <= j < i ==> NameChar(s[j])
  {
    if s == "" || !NameChar(s[0]) {
    } else {
      FirstBadCharIsFirst(s[1..]);
      if FirstBadChar(s).Some? {
        var i :| 0 <= i < |s[1..]| && s[1..][i] == FirstBadChar(s).value && !NameChar(s[1..][i])
                 && forall j :: 0 <= j < i ==> NameChar(s[1..][j]);
        assert forall j :: 1 <= j < i + 1 ==> s[j] == s[1..][j - 1];
        assert s[i + 1] == s[1..][i];
      }
    }
  }

  lemma {:induction false} AsciiLen(s: string)
    requires forall i :: 0 <= i < |s| ==> NameChar(s[i])
    ensures Utf8Len(s) == |s|
  {
    if s == "" {
    } else {
      AsciiLen(s[1..]);
    }
  }
}

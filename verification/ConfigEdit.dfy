/** Editing one field of a draft configuration: validators, the writer, the reader, the form's field
    lists (config_edit.rs). */
module ConfigEdit {
  import opened Wrappers
  import opened Text
  import opened Decimal
  import opened IpAddress
  import opened Base64Key
  import opened Config

  datatype ConfigSection = Interface | Peer(idx: nat)

  datatype EditableField =
    | ListenPort | Addresses | Dns | DnsSearch | Mtu | Fwmark | PreUp | PostUp | PreDown | PostDown
    | PeerName | PeerPublicKey | PeerEndpoint | PeerAllowedIps | PeerPersistentKeepalive

  datatype EditError =
    | PortTooHigh | PortNotNumeric
    | InvalidCidr(text: string) | InvalidIp(text: string) | InvalidDomain(text: string)
    | MtuOutOfRange | MtuNotNumeric | FwmarkNotNumeric
    | PublicKeyLength | PublicKeyInvalidBase64
    | EndpointFormat | EndpointHostEmpty | EndpointPortNotNumeric
    | DuplicateAllowedIp(text: string) | DuplicateCidrInInput
    | KeepaliveTooHigh | KeepaliveNotNumeric

  // ---- Comma lists ----

  function NonEmpty(items: seq<string>): (r: seq<string>)
    ensures forall t :: t in r <==> t in items && t != ""
  {
    if items == [] then [] else (if items[0] == "" then [] else [items[0]]) + NonEmpty(items[1..])
  }

  /** Trimmed, non-empty parts of a comma list. */
  function ParseCommaList(s: string): seq<string> {
    NonEmpty(SplitTrim(s, ','))
  }

  function FirstFailing(items: seq<string>, ok: string -> bool): (r: Option<string>)
    ensures r.None? <==> forall t :: t in items ==> ok(t)
  {
    if items == [] then None else if !ok(items[0]) then Some(items[0]) else FirstFailing(items[1..], ok)
  }

  // ---- Validators ----

  predicate IsValidCidr(cidr: string) {
    var parts := Split(cidr, '/');
    |parts| == 2 && ParseIp(parts[0]).Some? && ParseUInt(parts[1], U8_MAX).Some?
    && ParseUInt(parts[1], U8_MAX).value <= (if ParseIp(parts[0]).value.V4? then 32 else 128)
  }

  predicate IsAlnum(c: char) {
    'a' <= c <= 'z' || 'A' <= c <= 'Z' || '0' <= c <= '9'
  }

  predicate IsValidDomain(d: string) {
    && d != ""
    && (forall i :: 0 <= i < |d| ==> IsAlnum(d[i]) || d[i] == '.' || d[i] == '-')
    && IsAlnum(d[0]) && IsAlnum(d[|d| - 1])
  }

  function ValidatePort(s: string): Result<(), EditError> {
    if s == "" then Ok(()) else
    match ParseUInt(s, U32_MAX)
    case None => Err(PortNotNumeric)
    case Some(n) => if n > 65535 then Err(PortTooHigh) else Ok(())
  }

  function ValidateAddresses(s: string): Result<(), EditError> {
    match FirstFailing(ParseCommaList(s), IsValidCidr)
    case Some(t) => Err(InvalidCidr(t))
    case None => Ok(())
  }

  function ValidateDnsIps(s: string): Result<(), EditError> {
    match FirstFailing(ParseCommaList(s), t => ParseIp(t).Some?)
    case Some(t) => Err(InvalidIp(t))
    case None => Ok(())
  }

  function ValidateDnsSearch(s: string): Result<(), EditError> {
    match FirstFailing(ParseCommaList(s), IsValidDomain)
    case Some(t) => Err(InvalidDomain(t))
    case None => Ok(())
  }

  function ValidateMtu(s: string): Result<(), EditError> {
    if s == "" then Ok(()) else
    match ParseUInt(s, U16_MAX)
    case None => Err(MtuNotNumeric)
    case Some(n) => if n == 0 || 576 <= n <= 9000 then Ok(()) else Err(MtuOutOfRange)
  }

  function ValidateFwmark(s: string): Result<(), EditError> {
    if s == "" || ParseUInt(s, U32_MAX).Some? then Ok(()) else Err(FwmarkNotNumeric)
  }

  function ValidatePublicKey(s: string): Result<(), EditError> {
    if Utf8Len(s) != 44 then Err(PublicKeyLength) else
    match Decode(s)
    case None => Err(PublicKeyInvalidBase64)
    case Some(b) => if |b| != KEY_LEN then Err(PublicKeyInvalidBase64) else Ok(())
  }

  function ValidateEndpoint(s: string): Result<(), EditError> {
    if s == "" then Ok(()) else
    var parts := Split(s, ':');
    if |parts| != 2 then Err(EndpointFormat)
    else if parts[0] == "" then Err(EndpointHostEmpty)
    else if ParseUInt(parts[1], U16_MAX).None? then Err(EndpointPortNotNumeric)
    else Ok(())
  }

  /** The first fault of a list of allowed IPs; `seen` are the ones before. */
  function AllowedIpsFault(cidrs: seq<string>, others: seq<string>, seen: set<string>): Option<EditError>
    decreases |cidrs|
  {
    if cidrs == [] then None
    else if !IsValidCidr(cidrs[0]) then Some(InvalidCidr(cidrs[0]))
    else if cidrs[0] in others then Some(DuplicateAllowedIp(cidrs[0]))
    else if cidrs[0] in seen then Some(DuplicateCidrInInput)
    else AllowedIpsFault(cidrs[1..], others, seen + {cidrs[0]})
  }

  function ValidateAllowedIps(s: string, others: seq<string>): Result<(), EditError> {
    match AllowedIpsFault(ParseCommaList(s), others, {})
    case Some(e) => Err(e)
    case None => Ok(())
  }

  function ValidatePersistentKeepalive(s: string): Result<(), EditError> {
    if s == "" then Ok(()) else
    match ParseUInt(s, U32_MAX)
    case None => Err(KeepaliveNotNumeric)
    case Some(n) => if n > 65535 then Err(KeepaliveTooHigh) else Ok(())
  }

  /** The allowed IPs of every peer from `from` on, except the one being edited. */
  function OtherIps(peers: seq<PeerConfig>, section: ConfigSection, from: nat): (r: seq<string>)
    requires from <= |peers|
    ensures forall t :: t in r <==> exists i :: from <= i < |peers| && section != Peer(i) && t in peers[i].allowedIps
    decreases |peers| - from
  {
    if from == |peers| then [] else
    (if section == Peer(from) then [] else peers[from].allowedIps) + OtherIps(peers, section, from + 1)
  }

  function ValidateField(field: EditableField, value: string, draft: WgConfig, section: ConfigSection)
    : Result<(), EditError>
  {
    match field
    case ListenPort => ValidatePort(value)
    case Addresses => ValidateAddresses(value)
    case Dns => ValidateDnsIps(value)
    case DnsSearch => ValidateDnsSearch(value)
    case Mtu => ValidateMtu(value)
    case Fwmark => ValidateFwmark(value)
    case PreUp => Ok(())
    case PostUp => Ok(())
    case PreDown => Ok(())
    case PostDown => Ok(())
    case PeerName => Ok(())
    case PeerPublicKey => ValidatePublicKey(value)
    case PeerEndpoint => ValidateEndpoint(value)
    case PeerAllowedIps => ValidateAllowedIps(value, OtherIps(draft.peers, section, 0))
    case PeerPersistentKeepalive => ValidatePersistentKeepalive(value)
  }

  // ---- Writing a field ----

  /** `parse().unwrap_or(0)`. */
  function ParseOrZero(s: string, max: nat): (n: nat)
    ensures n <= max
  {
    match ParseUInt(s, max) case Some(n) => n case None => 0
  }

  /** The addresses among the tokens; a token that is not one is dropped. */
  function ParseIps(tokens: seq<string>): seq<IpAddr> {
    if tokens == [] then [] else
    match ParseIp(tokens[0])
    case Some(ip) => [ip] + ParseIps(tokens[1..])
    case None => ParseIps(tokens[1..])
  }

  predicate NamesPeer(section: ConfigSection, c: WgConfig) {
    section.Peer? && section.idx < |c.peers|
  }

  function WithPeer(c: WgConfig, section: ConfigSection, p: PeerConfig): WgConfig
    requires NamesPeer(section, c)
  {
    c.(peers := c.peers[section.idx := p])
  }

  function ApplyPeerField(field: EditableField, value: string, p: PeerConfig): PeerConfig {
    match field
    case PeerName => p.(name := value)
    case PeerEndpoint => p.(endpoint := if value == "" then None else Some(value))
    case PeerAllowedIps => p.(allowedIps := ParseCommaList(value))
    case PeerPersistentKeepalive => p.(persistentKeepalive := ParseOrZero(value, U16_MAX))
    case _ => p
  }

  function ApplyIfaceField(field: EditableField, value: string, i: InterfaceConfig): InterfaceConfig {
    match field
    case ListenPort => i.(listenPort := ParseOrZero(value, U16_MAX))
    case Addresses => i.(addresses := ParseCommaList(value))
    case Dns => i.(dns := ParseIps(ParseCommaList(value)))
    case DnsSearch => i.(dnsSearch := ParseCommaList(value))
    case Mtu => i.(mtu := ParseOrZero(value, U16_MAX))
    case Fwmark => i.(fwmark := ParseOrZero(value, U32_MAX))
    case PreUp => i.(preUp := ParseCommaList(value))
    case PostUp => i.(postUp := ParseCommaList(value))
    case PreDown => i.(preDown := ParseCommaList(value))
    case PostDown => i.(postDown := ParseCommaList(value))
    case _ => i
  }

  /** `apply_field`: peer fields go to the peer the section names, if there is one. */
  function ApplyField(field: EditableField, value: string, draft: WgConfig, section: ConfigSection): WgConfig {
    var d := draft.(iface := ApplyIfaceField(field, value, draft.iface));
    if NamesPeer(section, draft) then WithPeer(d, section, ApplyPeerField(field, value, draft.peers[section.idx]))
    else d
  }

  // ---- Reading a field ----

  function ShowOrEmpty(n: nat): string {
    if n == 0 then "" else ShowNat(n)
  }

  function PeerFieldValue(field: EditableField, p: PeerConfig): string {
    match field
    case PeerName => p.name
    case PeerPublicKey => ToBase64(p.publicKey)
    case PeerEndpoint => (match p.endpoint case Some(e) => e case None => "")
    case PeerAllowedIps => Join(p.allowedIps, ", ")
    case PeerPersistentKeepalive => ShowOrEmpty(p.persistentKeepalive)
    case _ => ""
  }

  /** `field_current_value`. */
  function FieldCurrentValue(field: EditableField, section: ConfigSection, c: WgConfig): string {
    match field
    case ListenPort => ShowOrEmpty(c.iface.listenPort)
    case Addresses => Join(c.iface.addresses, ", ")
    case Dns => Join(ShowIps(c.iface.dns), ", ")
    case DnsSearch => Join(c.iface.dnsSearch, ", ")
    case Mtu => ShowOrEmpty(c.iface.mtu)
    case Fwmark => ShowOrEmpty(c.iface.fwmark)
    case PreUp => Join(c.iface.preUp, ", ")
    case PostUp => Join(c.iface.postUp, ", ")
    case PreDown => Join(c.iface.preDown, ", ")
    case PostDown => Join(c.iface.postDown, ", ")
    case _ => if NamesPeer(section, c) then PeerFieldValue(field, c.peers[section.idx]) else ""
  }

  // ---- The form ----

  const INTERFACE_FIELDS: seq<EditableField> :=
    [ListenPort, Addresses, Dns, DnsSearch, Mtu, Fwmark, PreUp, PostUp, PreDown, PostDown]
  const PEER_FIELDS_EXISTING: seq<EditableField> :=
    [PeerName, PeerEndpoint, PeerAllowedIps, PeerPersistentKeepalive]
  const PEER_FIELDS_NEW: seq<EditableField> :=
    [PeerPublicKey, PeerName, PeerEndpoint, PeerAllowedIps, PeerPersistentKeepalive]

  function FieldsForSection(section: ConfigSection, isNewPeer: bool): (r: seq<EditableField>)
    ensures |r| > 0
    ensures PeerPublicKey in r <==> section.Peer? && isNewPeer
    ensures forall i :: 0 <= i < |r| && r[i] == PeerPublicKey ==> i == 0
  {
    match section
    case Interface => INTERFACE_FIELDS
    case Peer(_) => if isNewPeer then PEER_FIELDS_NEW else PEER_FIELDS_EXISTING
  }
}

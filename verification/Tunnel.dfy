/** The tunnel manager as functions: bringing connections up and down and what that does to the system
    DNS file (tunnel/mod.rs, tunnel/dns.rs, the command dispatch of daemon.rs). */
module Tunnel {
  import opened Wrappers
  import opened Text
  import opened IpAddress
  import opened Config
  import opened Names

  datatype BackendKind = Boringtun | Neptun | Gotatun

  datatype Entry = Entry(name: string, config: WgConfig)

  /** The configured connections, in key order. */
  type AppConfig = seq<Entry>

  datatype DnsState = Resolved(iface: string) | ResolvConf(backup: string)

  datatype ActiveConnection = ActiveConnection(
    backend: BackendKind,
    tunName: string,
    endpoint: Option<string>,
    dnsState: Option<DnsState>)

  /** The manager together with the system state it writes: the DNS file and how often a revert ran. */
  datatype Manager = Manager(
    config: AppConfig,
    connections: map<string, ActiveConnection>,
    file: string,
    reverts: nat)

  datatype TunnelError =
    | AlreadyUp | NotInConfig | NoPeers | NoEndpoint
    | ResolveFailed | TunFailed | RouteFailed | UdpFailed | BackendFailed
    | NotUp

  /** How the platform answers a DNS change: `resolvectl` does it, the file is rewritten, or both fail. */
  datatype DnsOutcome = ByResolvectl | ByFile | DnsFails

  /** The answers of the outside world to the calls of one `up`. */
  datatype UpOutcome = UpOutcome(
    resolves: bool,
    tun: Option<string>,
    routes: bool,
    dns: DnsOutcome,
    udp: bool,
    backend: bool)

  function Lookup(c: AppConfig, name: string): (r: Option<WgConfig>)
    ensures r.None? <==> forall e :: e in c ==> e.name != name
    ensures r.Some? ==> Entry(name, r.value) in c
  {
    if c == [] then None else if c[0].name == name then Some(c[0].config) else Lookup(c[1..], name)
  }

  // ---- DNS ----

  function NameserverLines(servers: seq<IpAddr>): string {
    if servers == [] then "" else "nameserver " + ShowIp(servers[0]) + "\n" + NameserverLines(servers[1..])
  }

  /** The lines put before the contents of the DNS file. */
  function DnsLines(servers: seq<IpAddr>, search: seq<string>): (r: string)
    ensures servers != [] || search != [] ==> r != ""
  {
    NameserverLines(servers) + (if search == [] then "" else "search " + Join(search, " ") + "\n")
  }

  /** `apply_dns`: the new DNS file and the token to revert with; a failure is not fatal. */
  function ApplyDns(file: string, iface: string, servers: seq<IpAddr>, search: seq<string>, o: DnsOutcome)
    : (string, Option<DnsState>)
  {
    if servers == [] && search == [] then (file, None)
    else match o
         case ByResolvectl => (file, Some(Resolved(iface)))
         case ByFile => (DnsLines(servers, search) + file, Some(ResolvConf(file)))
         case DnsFails => (file, None)
  }

  /** `remove_dns`. */
  function RevertDns(file: string, state: DnsState, succeeds: bool): string {
    if succeeds && state.ResolvConf? then state.backup else file
  }

  predicate HoldsDns(c: ActiveConnection) {
    c.dnsState.Some?
  }

  predicate AnyHolder(connections: map<string, ActiveConnection>) {
    exists n :: n in connections && HoldsDns(connections[n])
  }

  // ---- up and down ----

  /** What stops `up` before anything on the system changes. */
  function UpRefusal(m: Manager, name: string, o: UpOutcome): Option<TunnelError> {
    if name in m.connections then Some(AlreadyUp) else
    match Lookup(m.config, name)
    case None => Some(NotInConfig)
    case Some(c) =>
      if c.peers == [] then Some(NoPeers)
      else if c.peers[0].endpoint.None? then Some(NoEndpoint)
      else if !o.resolves then Some(ResolveFailed)
      else if o.tun.None? then Some(TunFailed)
      else if !o.routes then Some(RouteFailed)
      else None
  }

  /** `up`: the DNS step comes before the last two steps that can fail. */
  function Up(m: Manager, name: string, backend: BackendKind, o: UpOutcome): (Manager, Result<(), TunnelError>) {
    match UpRefusal(m, name, o)
    case Some(e) => (m, Err(e))
    case None =>
      var c := Lookup(m.config, name).value;
      var (file, state) := ApplyDns(m.file, o.tun.value, c.iface.dns, c.iface.dnsSearch, o.dns);
      if !o.udp then (m.(file := file), Err(UdpFailed))
      else if !o.backend then (m.(file := file), Err(BackendFailed))
      else (m.(file := file,
               connections := m.connections[name := ActiveConnection(backend, o.tun.value, c.peers[0].endpoint, state)]),
            Ok(()))
  }

  /** `down`: DNS is reverted only when no other active connection holds it. */
  function Down(m: Manager, name: string, revertSucceeds: bool): (Manager, Result<(), TunnelError>) {
    if name !in m.connections then (m, Err(NotUp)) else
    var conn, rest := m.connections[name], m.connections - {name};
    if HoldsDns(conn) && !AnyHolder(rest)
    then (m.(connections := rest, file := RevertDns(m.file, conn.dnsState.value, revertSucceeds), reverts := m.reverts + 1),
          Ok(()))
    else (m.(connections := rest), Ok(()))
  }

  // ---- All connections ----

  /** `up_all` over the names still to do: active ones are skipped, the first error ends it. */
  function UpEach(m: Manager, names: seq<string>, backend: BackendKind, o: string -> UpOutcome)
    : (Manager, Result<(), TunnelError>)
    decreases |names|
  {
    if names == [] then (m, Ok(()))
    else if names[0] in m.connections then UpEach(m, names[1..], backend, o)
    else
      var (next, r) := Up(m, names[0], backend, o(names[0]));
      if r.Err? then (next, r) else UpEach(next, names[1..], backend, o)
  }

  function NamesOf(c: AppConfig): (r: seq<string>)
    ensures |r| == |c| && forall i :: 0 <= i < |c| ==> r[i] == c[i].name
  {
    seq(|c|, i requires 0 <= i < |c| => c[i].name)
  }

  function UpAll(m: Manager, backend: BackendKind, o: string -> UpOutcome): (Manager, Result<(), TunnelError>) {
    UpEach(m, NamesOf(m.config), backend, o)
  }

  /** `down_all` over the names still to do, in whatever order the map lists them. */
  function DownEach(m: Manager, order: seq<string>, revertSucceeds: string -> bool): Manager
    decreases |order|
  {
    if order == [] then m else DownEach(Down(m, order[0], revertSucceeds(order[0])).0, order[1..], revertSucceeds)
  }

  /** The order lists every active connection once. */
  ghost predicate ListsKeys(order: seq<string>, connections: map<string, ActiveConnection>) {
    && (forall n :: n in order <==> n in connections)
    && forall i, j :: 0 <= i < j < |order| ==> order[i] != order[j]
  }

  // ---- Status ----

  datatype PeerStatus = PeerStatus(
    name: string, connected: bool, backend: BackendKind, endpoint: Option<string>, tunName: Option<string>)

  function StatusOf(m: Manager, e: Entry): PeerStatus {
    if e.name in m.connections then
      var a := m.connections[e.name];
      PeerStatus(e.name, true, a.backend,
                 if a.endpoint.Some? then a.endpoint
                 else if e.config.peers == [] then None else e.config.peers[0].endpoint,
                 Some(a.tunName))
    else PeerStatus(e.name, false, Boringtun, if e.config.peers == [] then None else e.config.peers[0].endpoint, None)
  }

  function Status(m: Manager): (r: seq<PeerStatus>)
    ensures |r| == |m.config|
    ensures forall i :: 0 <= i < |r| ==> r[i] == StatusOf(m, m.config[i])
  {
    seq(|m.config|, i requires 0 <= i < |m.config| => StatusOf(m, m.config[i]))
  }

  // ---- Commands ----

  datatype Command =
    | UpCmd(target: Option<string>, backend: BackendKind)
    | DownCmd(target: Option<string>)
    | StatusCmd
    | SwitchBackend(name: string, newBackend: BackendKind)
    | Shutdown
    | Benchmark
    | StreamLogs

  datatype Response = Done | Failed(error: TunnelError) | Report(statuses: seq<PeerStatus>) | Unsupported

  /** The outside world's answers during one command: the configuration file as read (`None` when it
      cannot be loaded), each `up`, each DNS revert, and the map's iteration order. */
  datatype World = World(
    config: Option<AppConfig>,
    up: string -> UpOutcome,
    revert: string -> bool,
    order: seq<string>)

  function Respond(r: Result<(), TunnelError>): Response {
    match r case Ok(_) => Done case Err(e) => Failed(e)
  }

  predicate NeedsReload(c: Command) {
    c.UpCmd? || c.StatusCmd?
  }

  function ReloadFor(m: Manager, c: Command, w: World): Manager {
    if NeedsReload(c) && w.config.Some? then m.(config := w.config.value) else m
  }

  /** `handle_command`. */
  function Handle(m: Manager, c: Command, w: World): (Manager, Response) {
    match c
    case UpCmd(Some(name), backend) => var (n, r) := Up(m, name, backend, w.up(name)); (n, Respond(r))
    case UpCmd(None, backend) => var (n, r) := UpAll(m, backend, w.up); (n, Respond(r))
    case DownCmd(Some(name)) => var (n, r) := Down(m, name, w.revert(name)); (n, Respond(r))
    case DownCmd(None) => (DownEach(m, w.order, w.revert), Done)
    case StatusCmd => (m, Report(Status(m)))
    case SwitchBackend(name, backend) =>
      var (n, r) := Up(Down(m, name, w.revert(name)).0, name, backend, w.up(name)); (n, Respond(r))
    case Shutdown => (m, Done)
    case Benchmark => (m, Unsupported)
    case StreamLogs => (m, Unsupported)
  }

  /** `process_command`: reload the configuration when the command asks for it, then handle it. */
  function Process(m: Manager, c: Command, w: World): (Manager, Response) {
    Handle(ReloadFor(m, c, w), c, w)
  }
}

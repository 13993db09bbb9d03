/** The tunnel manager as an object, with loops over the connections, proved against Tunnel. */
module TunnelManagerClass {
  import opened Wrappers
  import opened Text
  import opened IpAddress
  import opened Config
  import opened Tunnel

  class TunnelManager {
    var config: AppConfig
    var connections: map<string, ActiveConnection>
    var file: string   // the system DNS file
    var reverts: nat   // how often a DNS revert was run

    function View(): Manager
      reads this
    {
      Manager(config, connections, file, reverts)
    }

    constructor (config: AppConfig, file: string)
      ensures View() == Manager(config, map[], file, 0)
    {
      this.config, connections, this.file, reverts := config, map[], file, 0;
    }

    /** Active connections are not affected. */
    method ReloadConfig(config: AppConfig)
      modifies this`config
      ensures this.config == config
    {
      this.config := config;
    }

    /** `apply_resolv_conf`: read the file, build the lines, write them in front. */
    method ApplyResolvConf(servers: seq<IpAddr>, search: seq<string>) returns (backup: string)
      modifies this`file
      ensures backup == old(file) && file == DnsLines(servers, search) + old(file)
    {
      backup := file;
      var prepend := "";
      for i := 0 to |servers|
        invariant prepend + NameserverLines(servers[i..]) == NameserverLines(servers)
      {
        var line := "nameserver " + ShowIp(servers[i]) + "\n";
        assert servers[i..][0] == servers[i] && servers[i..][1..] == servers[i + 1..];
        ConcatAssoc(prepend, line, NameserverLines(servers[i + 1..]));
        prepend := prepend + line;
      }
      assert prepend + "" == prepend;
      if search != [] {
        prepend := prepend + ("search " + Join(search, " ") + "\n");
      }
      file := prepend + backup;
    }

    method ApplyDnsStep(iface: string, c: InterfaceConfig, outcome: DnsOutcome) returns (state: Option<DnsState>)
      modifies this`file
      ensures (file, state) == ApplyDns(old(file), iface, c.dns, c.dnsSearch, outcome)
    {
      state := None;
      if c.dns == [] && c.dnsSearch == [] {
        return;
      }
      match outcome {
        case ByResolvectl => state := Some(Resolved(iface));
        case ByFile =>
          var backup := ApplyResolvConf(c.dns, c.dnsSearch);
          state := Some(ResolvConf(backup));
        case DnsFails =>
      }
    }

    method BringUp(name: string, backend: BackendKind, o: UpOutcome) returns (r: Result<(), TunnelError>)
      modifies this
      ensures (View(), r) == Up(old(View()), name, backend, o)
    {
      hide ApplyDns;
      if name in connections {
        return Err(AlreadyUp);
      }
      var found := Lookup(config, name);
      if found.None? {
        return Err(NotInConfig);
      }
      var wg := found.value;
      if wg.peers == [] {
        return Err(NoPeers);
      }
      var peer := wg.peers[0];
      if peer.endpoint.None? {
        return Err(NoEndpoint);
      }
      if !o.resolves {
        return Err(ResolveFailed);
      }
      if o.tun.None? {
        return Err(TunFailed);
      }
      if !o.routes {
        return Err(RouteFailed);
      }
      var dnsState := ApplyDnsStep(o.tun.value, wg.iface, o.dns);
      if !o.udp {
        return Err(UdpFailed);
      }
      if !o.backend {
        return Err(BackendFailed);
      }
      connections := connections[name := ActiveConnection(backend, o.tun.value, peer.endpoint, dnsState)];
      return Ok(());
    }

    method TearDown(name: string, revertSucceeds: bool) returns (r: Result<(), TunnelError>)
      modifies this
      ensures (View(), r) == Down(old(View()), name, revertSucceeds)
    {
      if name !in connections {
        return Err(NotUp);
      }
      var conn := connections[name];
      connections := connections - {name};
      if conn.dnsState.Some? {
        var otherDnsActive := AnyHolder(connections);
        if !otherDnsActive {
          reverts := reverts + 1;
          file := RevertDns(file, conn.dnsState.value, revertSucceeds);
        }
      }
      return Ok(());
    }

    method BringUpAll(backend: BackendKind, o: string -> UpOutcome) returns (r: Result<(), TunnelError>)
      modifies this
      ensures (View(), r) == UpAll(old(View()), backend, o)
    {
      hide Up;
      var names := NamesOf(config);
      ghost var was := View();
      for i := 0 to |names|
        invariant UpEach(View(), names[i..], backend, o) == UpEach(was, names, backend, o)
      {
        assert names[i..][0] == names[i] && names[i..][1..] == names[i + 1..];
        if names[i] !in connections {
          r := BringUp(names[i], backend, o(names[i]));
          if r.Err? {
            return;
          }
        }
      }
      return Ok(());
    }

    method TearDownAll(order: seq<string>, revertSucceeds: string -> bool)
      requires ListsKeys(order, connections)
      modifies this
      ensures View() == DownEach(old(View()), order, revertSucceeds)
    {
      hide Down;
      ghost var was := View();
      for i := 0 to |order|
        invariant DownEach(View(), order[i..], revertSucceeds) == DownEach(was, order, revertSucceeds)
      {
        assert order[i..][0] == order[i] && order[i..][1..] == order[i + 1..];
        var _ := TearDown(order[i], revertSucceeds(order[i]));
      }
    }

    method HandleCommand(c: Command, w: World) returns (response: Response)
      requires ListsKeys(w.order, connections)
      modifies this
      ensures (View(), response) == Process(old(View()), c, w)
    {
      hide Up, Down, UpAll, DownEach, ListsKeys, Status;
      if NeedsReload(c) && w.config.Some? {
        ReloadConfig(w.config.value);
      }
      var r;
      match c {
        case UpCmd(Some(name), backend) =>
          r := BringUp(name, backend, w.up(name));
          response := Respond(r);
        case UpCmd(None, backend) =>
          r := BringUpAll(backend, w.up);
          response := Respond(r);
        case DownCmd(Some(name)) =>
          r := TearDown(name, w.revert(name));
          response := Respond(r);
        case DownCmd(None) =>
          TearDownAll(w.order, w.revert);
          response := Done;
        case StatusCmd => response := Report(Status(View()));
        case SwitchBackend(name, backend) =>
          r := TearDown(name, w.revert(name));
          r := BringUp(name, backend, w.up(name));
          response := Respond(r);
        case Shutdown => response := Done;
        case Benchmark => response := Unsupported;
        case StreamLogs => response := Unsupported;
      }
    }
  }
}

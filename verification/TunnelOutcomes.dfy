/** What the manager's commands leave behind in its connections, and what it reports about them. */
module TunnelOutcomes {
  import opened Wrappers
  import opened Text
  import opened IpAddress
  import opened Config
  import opened Tunnel
  import opened TunnelLaws

  // ---- up ----

  /** The name and configuration `up` works with. */
  predicate Configured(m: Manager, name: string, c: WgConfig) {
    Lookup(m.config, name) == Some(c)
  }

  /** The connection an `up` was asked for: its backend, the created device, the first peer's endpoint, and the
      DNS state of the way the change was made. */
  predicate BroughtUp(m: Manager, a: ActiveConnection, c: WgConfig, backend: BackendKind, o: UpOutcome) {
    && a.backend == backend
    && o.tun == Some(a.tunName)
    && c.peers != [] && a.endpoint == c.peers[0].endpoint && a.endpoint.Some?
    && a.dnsState == if c.iface.dns == [] && c.iface.dnsSearch == [] then None
                     else match o.dns
                          case ByResolvectl => Some(Resolved(a.tunName))
                          case ByFile => Some(ResolvConf(m.file))
                          case DnsFails => None
  }

  /** `up` succeeds exactly when the name is inactive and configured with a first peer that has an endpoint, and
      every call outside succeeds; DNS may fail.  It then adds the connection asked for. */
  lemma UpSucceedsIff(m: Manager, name: string, backend: BackendKind, o: UpOutcome)
    ensures var (n, r) := Up(m, name, backend, o);
            && (r.Ok? <==>
                  && name !in m.connections && Lookup(m.config, name).Some?
                  && Lookup(m.config, name).value.peers != [] && Lookup(m.config, name).value.peers[0].endpoint.Some?
                  && o.resolves && o.tun.Some? && o.routes && o.udp && o.backend)
            && (r.Ok? ==>
                  && name in n.connections
                  && n.connections == m.connections[name := n.connections[name]]
                  && BroughtUp(m, n.connections[name], Lookup(m.config, name).value, backend, o))
            && (r.Err? ==> n.connections == m.connections)
            && n.config == m.config && n.reverts == m.reverts
  {
    hide Lookup, DnsLines;
  }

  /** Which error a failing `up` reports: the first in the order in which the steps are taken. */
  lemma UpReports(m: Manager, name: string, backend: BackendKind, o: UpOutcome)
    requires Up(m, name, backend, o).1.Err?
    ensures var e, found := Up(m, name, backend, o).1.error, Lookup(m.config, name);
            && (e == AlreadyUp <==> name in m.connections)
            && (e == NotInConfig <==> name !in m.connections && found.None?)
            && (e == NoPeers <==> name !in m.connections && found.Some? && found.value.peers == [])
            && (e == NoEndpoint <==> name !in m.connections && found.Some? && found.value.peers != []
                                     && found.value.peers[0].endpoint.None?)
            && (e in {ResolveFailed, TunFailed, RouteFailed, UdpFailed, BackendFailed} ==>
                  && name !in m.connections && found.Some?
                  && e == if !o.resolves then ResolveFailed else if o.tun.None? then TunFailed
                          else if !o.routes then RouteFailed else if !o.udp then UdpFailed else BackendFailed)
            && e != NotUp
  {
    hide Lookup, DnsLines;
  }

  /** `down` succeeds exactly for active names, takes out that connection alone, and reports `NotUp` otherwise. */
  lemma DownSucceedsIff(m: Manager, name: string, ok: bool)
    ensures var (n, r) := Down(m, name, ok);
            && r == (if name in m.connections then Ok(()) else Err(NotUp))
            && n.connections == m.connections - {name} && n.config == m.config
            && (name !in m.connections ==> n == m)
  {
    assert name !in m.connections ==> m.connections - {name} == m.connections;
  }

  // ---- Status ----

  /** Status has one line for each configured connection, in order: an active one with its backend, device and
      endpoint, an inactive one with the endpoint it would use. */
  lemma StatusSays(m: Manager, i: nat)
    requires i < |m.config|
    ensures var line, e := Status(m)[i], m.config[i];
            && |Status(m)| == |m.config| && line.name == e.name
            && (line.connected <==> e.name in m.connections)
            && (e.name in m.connections ==>
                  && line.backend == m.connections[e.name].backend
                  && line.tunName == Some(m.connections[e.name].tunName)
                  && (m.connections[e.name].endpoint.Some? ==> line.endpoint == m.connections[e.name].endpoint))
            && (e.name !in m.connections ==>
                  && line.tunName == None && line.backend == Boringtun
                  && line.endpoint == if e.config.peers == [] then None else e.config.peers[0].endpoint)
  {
  }

  // ---- Commands ----

  /** The answer tells success or the error; a down for all always succeeds and leaves nothing active. */
  lemma Answers(m: Manager, c: Command, w: World)
    ensures c.UpCmd? || c.SwitchBackend? ==> Process(m, c, w).1 == Done || Process(m, c, w).1.Failed?
    ensures c.DownCmd? && c.target.Some? ==>
              && Process(m, c, w).1 == (if c.target.value in m.connections then Done else Failed(NotUp))
              && Process(m, c, w).0.connections == m.connections - {c.target.value}
    ensures c.DownCmd? && c.target.None? && ListsKeys(w.order, m.connections) ==>
              Process(m, c, w).1 == Done && Process(m, c, w).0.connections == map[]
  {
    if c.DownCmd? && c.target.Some? {
      DownSucceedsIff(m, c.target.value, w.revert(c.target.value));
    }
    if c.DownCmd? && c.target.None? && ListsKeys(w.order, m.connections) {
      DownAllResult(m, w.order, w.revert);
    }
    hide Up, Down, UpEach, DownEach, ListsKeys, AnyHolder;
  }

  /** Status, up and up-all read the configuration first, when it can be read; no other command does, and status
      changes nothing else. */
  lemma ReloadsWhenAsked(m: Manager, c: Command, w: World)
    ensures Process(m, c, w).0.config
            == if (c.UpCmd? || c.StatusCmd?) && w.config.Some? then w.config.value else m.config
    ensures c.StatusCmd? ==>
              Process(m, c, w) == (m.(config := Process(m, c, w).0.config), Report(Status(Process(m, c, w).0)))
    ensures c.Shutdown? || c.Benchmark? || c.StreamLogs? ==> Process(m, c, w).0 == m
    ensures c.Shutdown? ==> Process(m, c, w).1 == Done
    ensures c.Benchmark? || c.StreamLogs? ==> Process(m, c, w).1 == Unsupported
  {
    var r := ReloadFor(m, c, w);
    match c {
      case UpCmd(Some(name), backend) => UpSucceedsIff(r, name, backend, w.up(name));
      case UpCmd(None, backend) => UpEachResult(r, NamesOf(r.config), backend, w.up);
      case DownCmd(Some(name)) => DownSucceedsIff(r, name, w.revert(name));
      case DownCmd(None) => DownEachKeepsConfig(r, w.order, w.revert);
      case SwitchBackend(name, backend) =>
        DownSucceedsIff(r, name, w.revert(name));
        UpSucceedsIff(Down(r, name, w.revert(name)).0, name, backend, w.up(name));
      case _ =>
    }
    hide Up, Down, UpEach, DownEach, Lookup;
  }

  lemma {:induction false} DownEachKeepsConfig(m: Manager, order: seq<string>, ok: string -> bool)
    ensures DownEach(m, order, ok).config == m.config
    decreases |order|
  {
    hide Down;
    if order == [] {
    } else {
      DownSucceedsIff(m, order[0], ok(order[0]));
      DownEachKeepsConfig(Down(m, order[0], ok(order[0])).0, order[1..], ok);
    }
  }

  /** A successful up by name: afterwards that connection is active as asked for, status says so, and the other
      connections are as before. */
  lemma UpCommandResult(m: Manager, name: string, backend: BackendKind, w: World, i: nat)
    requires Process(m, UpCmd(Some(name), backend), w).1 == Done
    requires var n := Process(m, UpCmd(Some(name), backend), w).0; i < |n.config| && n.config[i].name == name
    ensures var n := Process(m, UpCmd(Some(name), backend), w).0;
            && Status(n)[i].connected && Status(n)[i].backend == backend
            && Status(n)[i].tunName == w.up(name).tun
            && (exists c :: Configured(n, name, c) && c.peers != [] && Status(n)[i].endpoint == c.peers[0].endpoint)
            && n.connections - {name} == m.connections
  {
    var r := ReloadFor(m, UpCmd(Some(name), backend), w);
    UpSucceedsIff(r, name, backend, w.up(name));
    var n := Process(m, UpCmd(Some(name), backend), w).0;
    StatusSays(n, i);
    hide Up, Status, Lookup;
    assert Configured(n, name, Lookup(r.config, name).value);
    assert n.connections - {name} == m.connections;
  }

  /** A successful switch: the connection is active on the new backend, status says so, and the others are as
      before. */
  lemma SwitchResult(m: Manager, name: string, backend: BackendKind, w: World, i: nat)
    requires Process(m, SwitchBackend(name, backend), w).1 == Done
    requires i < |m.config| && m.config[i].name == name
    ensures var n := Process(m, SwitchBackend(name, backend), w).0;
            && n.config == m.config
            && Status(n)[i].connected && Status(n)[i].backend == backend
            && Status(n)[i].tunName == w.up(name).tun
            && n.connections - {name} == m.connections - {name}
  {
    var d := Down(m, name, w.revert(name)).0;
    DownSucceedsIff(m, name, w.revert(name));
    UpSucceedsIff(d, name, backend, w.up(name));
    var n := Process(m, SwitchBackend(name, backend), w).0;
    StatusSays(n, i);
    hide Up, Down, Status, Lookup;
    assert n.connections - {name} == m.connections - {name};
  }

  /** A failed switch leaves the connection down, whatever it was before. */
  lemma FailedSwitch(m: Manager, name: string, backend: BackendKind, w: World)
    requires Process(m, SwitchBackend(name, backend), w).1 != Done
    ensures Process(m, SwitchBackend(name, backend), w).0.connections == m.connections - {name}
  {
    var d := Down(m, name, w.revert(name)).0;
    DownSucceedsIff(m, name, w.revert(name));
    UpSucceedsIff(d, name, backend, w.up(name));
    hide Up, Down, Lookup;
    var (n, r) := Up(d, name, backend, w.up(name));
    assert Process(m, SwitchBackend(name, backend), w) == (n, Respond(r));
    assert r.Err?;
  }

  /** Up for all: every connection that became active was brought up with the backend asked for, on the device
      and to the endpoint of its own configuration. */
  lemma {:induction false} UpEachBringsUp(m: Manager, names: seq<string>, backend: BackendKind, o: string -> UpOutcome,
                                          name: string)
    requires name !in m.connections && name in UpEach(m, names, backend, o).0.connections
    ensures var n := UpEach(m, names, backend, o).0;
            && n.config == m.config
            && Lookup(m.config, name).Some?
            && exists was: Manager :: BroughtUp(was, n.connections[name], Lookup(m.config, name).value, backend, o(name))
    decreases |names|
  {
    var x := names[0];
    hide UpEach, BroughtUp;
    UpEachUnfold(m, names, backend, o);
    if x in m.connections {
      UpEachBringsUp(m, names[1..], backend, o, name);
    } else {
      UpSucceedsIff(m, x, backend, o(x));
      var (next, r) := Up(m, x, backend, o(x));
      hide Up, Lookup;
      if r.Ok? {
        if x == name {
          UpEachResult(next, names[1..], backend, o);
          assert BroughtUp(m, next.connections[x], Lookup(m.config, x).value, backend, o(x));
        } else {
          UpEachBringsUp(next, names[1..], backend, o, name);
        }
      }
    }
  }

  /** The same for the command, as status shows it. */
  lemma UpAllCommandResult(m: Manager, backend: BackendKind, w: World, i: nat)
    requires Process(m, UpCmd(None, backend), w).1 == Done
    requires i < |Process(m, UpCmd(None, backend), w).0.config|
    ensures var n := Process(m, UpCmd(None, backend), w).0;
            && Status(n)[i].connected
            && (n.config[i].name in m.connections ==>
                  n.connections[n.config[i].name] == m.connections[n.config[i].name])
            && (n.config[i].name !in m.connections ==>
                  Status(n)[i].backend == backend && Status(n)[i].tunName == w.up(n.config[i].name).tun)
  {
    var r := ReloadFor(m, UpCmd(None, backend), w);
    var n := Process(m, UpCmd(None, backend), w).0;
    ReloadsWhenAsked(m, UpCmd(None, backend), w);
    UpAllResult(r, backend, w.up);
    assert n == UpAll(r, backend, w.up).0;
    StatusSays(n, i);
    hide Status, ReloadFor, Process, UpEach;
    var name := n.config[i].name;
    assert n.config[i] in r.config;
    if name !in m.connections {
      UpEachBringsUp(r, NamesOf(r.config), backend, w.up, name);
    }
  }

  // ---- The DNS lines ----

  function Prefixed(ips: seq<IpAddr>): (r: seq<string>)
    ensures |r| == |ips| && forall i :: 0 <= i < |ips| ==> r[i] == "nameserver " + ShowIp(ips[i])
  {
    seq(|ips|, i requires 0 <= i < |ips| => "nameserver " + ShowIp(ips[i]))
  }

  /** The prepended text: one `nameserver` line for each server, in order, then one `search` line with all
      domains if there are any. */
  lemma DnsLinesAre(servers: seq<IpAddr>, search: seq<string>)
    ensures DnsLines(servers, search)
            == Unlines(Prefixed(servers) + if search == [] then [] else ["search " + Join(search, " ")])
  {
    var last: seq<string> := if search == [] then [] else ["search " + Join(search, " ")];
    UnlinesAppend(Prefixed(servers), last);
    NameserversAre(servers);
    hide Join, NameserverLines, Prefixed;
    if search != [] {
      assert last[1..] == [];
    }
  }

  lemma {:induction false} NameserversAre(servers: seq<IpAddr>)
    ensures NameserverLines(servers) == Unlines(Prefixed(servers))
  {
    hide ShowIp;
    if servers == [] {
    } else {
      NameserversAre(servers[1..]);
      assert Prefixed(servers)[1..] == Prefixed(servers[1..]);
    }
  }

  /** The steps of an `up` before its DNS step all succeed. */
  predicate ReachesDns(m: Manager, name: string, o: UpOutcome) {
    && name !in m.connections && Lookup(m.config, name).Some?
    && Lookup(m.config, name).value.peers != [] && Lookup(m.config, name).value.peers[0].endpoint.Some?
    && o.resolves && o.tun.Some? && o.routes
  }

  /** The file after an `up`, successful or not: the lines go in front when the platform rewrites the file, and it
      stays as it was when `resolvectl` made the change, the change failed, or there is nothing to set. */
  lemma FileAfterUp(m: Manager, name: string, backend: BackendKind, o: UpOutcome)
    ensures var n := Up(m, name, backend, o).0;
            if !ReachesDns(m, name, o) || o.dns != ByFile then n.file == m.file
            else var i := Lookup(m.config, name).value.iface;
                 n.file == if i.dns == [] && i.dnsSearch == [] then m.file else DnsLines(i.dns, i.dnsSearch) + m.file
  {
    hide Lookup, DnsLines;
  }
}

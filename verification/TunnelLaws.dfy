/** What the shared DNS file contains over any interleaving of connections, and what the bulk commands
    leave behind. */
module TunnelLaws {
  import opened Wrappers
  import opened Text
  import opened IpAddress
  import opened Base64Key
  import opened Config
  import opened Tunnel

  // ---- Primitive steps ----

  /** Every command is a sequence of these. */
  datatype Prim =
    | PUp(name: string, backend: BackendKind, o: UpOutcome)
    | PDown(name: string, revertSucceeds: bool)
    | PConfig(config: AppConfig)

  function Apply(m: Manager, p: Prim): Manager {
    match p
    case PUp(name, backend, o) => Up(m, name, backend, o).0
    case PDown(name, ok) => Down(m, name, ok).0
    case PConfig(c) => m.(config := c)
  }

  function ApplyAll(m: Manager, ps: seq<Prim>): Manager
    decreases |ps|
  {
    if ps == [] then m else ApplyAll(Apply(m, ps[0]), ps[1..])
  }

  function UpEachPrims(m: Manager, names: seq<string>, backend: BackendKind, o: string -> UpOutcome): seq<Prim>
    decreases |names|
  {
    if names == [] then []
    else if names[0] in m.connections then UpEachPrims(m, names[1..], backend, o)
    else
      var (next, r) := Up(m, names[0], backend, o(names[0]));
      [PUp(names[0], backend, o(names[0]))] + if r.Err? then [] else UpEachPrims(next, names[1..], backend, o)
  }

  function DownEachPrims(order: seq<string>, revertSucceeds: string -> bool): seq<Prim> {
    seq(|order|, i requires 0 <= i < |order| => PDown(order[i], revertSucceeds(order[i])))
  }

  function HandlePrims(m: Manager, c: Command, w: World): seq<Prim> {
    match c
    case UpCmd(Some(name), backend) => [PUp(name, backend, w.up(name))]
    case UpCmd(None, backend) => UpEachPrims(m, NamesOf(m.config), backend, w.up)
    case DownCmd(Some(name)) => [PDown(name, w.revert(name))]
    case DownCmd(None) => DownEachPrims(w.order, w.revert)
    case SwitchBackend(name, backend) => [PDown(name, w.revert(name)), PUp(name, backend, w.up(name))]
    case _ => []
  }

  function ProcessPrims(m: Manager, c: Command, w: World): seq<Prim> {
    (if NeedsReload(c) && w.config.Some? then [PConfig(w.config.value)] else []) + HandlePrims(ReloadFor(m, c, w), c, w)
  }

  lemma {:induction false} ApplyAllAppend(m: Manager, a: seq<Prim>, b: seq<Prim>)
    ensures ApplyAll(m, a + b) == ApplyAll(ApplyAll(m, a), b)
    decreases |a|
  {
    hide Apply;
    if a == [] {
      assert a + b == b;
    } else {
      assert (a + b)[0] == a[0] && (a + b)[1..] == a[1..] + b;
      ApplyAllAppend(Apply(m, a[0]), a[1..], b);
    }
  }

  lemma ApplyOne(m: Manager, p: Prim)
    ensures ApplyAll(m, [p]) == Apply(m, p)
  {
    assert [p][1..] == [];
  }

  lemma {:induction false} UpEachIsPrims(m: Manager, names: seq<string>, backend: BackendKind, o: string -> UpOutcome)
    ensures ApplyAll(m, UpEachPrims(m, names, backend, o)) == UpEach(m, names, backend, o).0
    decreases |names|
  {
    hide Up;
    if names == [] {
    } else {
      if names[0] in m.connections {
        UpEachIsPrims(m, names[1..], backend, o);
      } else {
        var (next, r) := Up(m, names[0], backend, o(names[0]));
        var p := PUp(names[0], backend, o(names[0]));
        UpEachIsPrims(next, names[1..], backend, o);
        ApplyAllAppend(m, [p], if r.Err? then [] else UpEachPrims(next, names[1..], backend, o));
        ApplyOne(m, p);
      }
    }
  }

  lemma {:induction false} DownEachIsPrims(m: Manager, order: seq<string>, revertSucceeds: string -> bool)
    ensures ApplyAll(m, DownEachPrims(order, revertSucceeds)) == DownEach(m, order, revertSucceeds)
    decreases |order|
  {
    hide Down;
    if order == [] {
    } else {
      DownEachIsPrims(Down(m, order[0], revertSucceeds(order[0])).0, order[1..], revertSucceeds);
      var ps := DownEachPrims(order, revertSucceeds);
      assert ps[1..] == DownEachPrims(order[1..], revertSucceeds);
    }
  }

  lemma ProcessIsPrims(m: Manager, c: Command, w: World)
    ensures ApplyAll(m, ProcessPrims(m, c, w)) == Process(m, c, w).0
  {
    hide Up, Down, UpEach, DownEach, ApplyAll, UpEachPrims, DownEachPrims, NamesOf;
    var r := ReloadFor(m, c, w);
    var head: seq<Prim> := if NeedsReload(c) && w.config.Some? then [PConfig(w.config.value)] else [];
    ApplyAllAppend(m, head, HandlePrims(r, c, w));
    NoPrims(m);
    if head != [] {
      ApplyOne(m, head[0]);
    }
    NoPrims(r);
    match c {
      case UpCmd(Some(name), backend) => ApplyOne(r, PUp(name, backend, w.up(name)));
      case UpCmd(None, backend) => UpEachIsPrims(r, NamesOf(r.config), backend, w.up);
      case DownCmd(Some(name)) => ApplyOne(r, PDown(name, w.revert(name)));
      case DownCmd(None) => DownEachIsPrims(r, w.order, w.revert);
      case SwitchBackend(name, backend) =>
        var d, u := PDown(name, w.revert(name)), PUp(name, backend, w.up(name));
        ApplyAllAppend(r, [d], [u]);
        ApplyOne(r, d);
        ApplyOne(Apply(r, d), u);
        assert [d] + [u] == [d, u];
      case _ =>
    }
  }

  lemma NoPrims(m: Manager)
    ensures ApplyAll(m, []) == m
  {
  }

  // ---- The DNS file between holder-free moments ----

  /** What has happened to the file since the last moment when no connection held DNS: the text then, the
      lines prepended since (oldest first), and how many of them were there when a holder came up. */
  datatype Epoch = Epoch(base: string, hist: seq<string>, place: map<string, nat>)

  /** The newest lines first, then the text at the start. */
  function Stack(base: string, hist: seq<string>): string {
    if hist == [] then base else hist[|hist| - 1] + Stack(base, hist[..|hist| - 1])
  }

  function Calm(file: string): Epoch {
    Epoch(file, [], map[])
  }

  /** The epoch restarts whenever nobody holds DNS. */
  function Settle(m: Manager, ep: Epoch): Epoch {
    if AnyHolder(m.connections) then ep else Calm(m.file)
  }

  /** The lines an `up` puts into the file: it got as far as the DNS step, has DNS settings, and the
      platform fell back to the file. */
  function Writes(m: Manager, name: string, o: UpOutcome): Option<string> {
    if UpRefusal(m, name, o).Some? then None else
    var i := Lookup(m.config, name).value.iface;
    if o.dns == ByFile && (i.dns != [] || i.dnsSearch != []) then Some(DnsLines(i.dns, i.dnsSearch)) else None
  }

  function EpochStep(m: Manager, ep: Epoch, p: Prim): Epoch {
    match p
    case PUp(name, _, o) =>
      (match Writes(m, name, o)
       case Some(lines) => Settle(Apply(m, p), Epoch(ep.base, ep.hist + [lines], ep.place[name := |ep.hist|]))
       case None => Settle(Apply(m, p), ep))
    case PDown(_, _) => Settle(Apply(m, p), ep)
    case PConfig(_) => ep
  }

  function EpochOf(m: Manager, ep: Epoch, ps: seq<Prim>): Epoch
    decreases |ps|
  {
    if ps == [] then ep else EpochOf(Apply(m, ps[0]), EpochStep(m, ep, ps[0]), ps[1..])
  }

  /** A file-based holder's backup is the file as it was just before it came up. */
  predicate BackupOk(c: ActiveConnection, ep: Epoch, name: string) {
    match c.dnsState
    case Some(ResolvConf(backup)) =>
      name in ep.place && ep.place[name] < |ep.hist| && backup == Stack(ep.base, ep.hist[..ep.place[name]])
    case _ => true
  }

  predicate NoneEmpty(hist: seq<string>) {
    forall k :: 0 <= k < |hist| ==> hist[k] != ""
  }

  ghost predicate EpochInv(m: Manager, ep: Epoch) {
    && m.file == Stack(ep.base, ep.hist)
    && NoneEmpty(ep.hist)
    && (forall n :: n in m.connections ==> BackupOk(m.connections[n], ep, n))
    && (!AnyHolder(m.connections) ==> ep.hist == [])
  }

  lemma StackSnoc(base: string, hist: seq<string>, lines: string)
    ensures Stack(base, hist + [lines]) == lines + Stack(base, hist)
  {
    assert (hist + [lines])[..|hist|] == hist;
  }

  /** Another line in front moves no backup. */
  lemma BackupKept(c: ActiveConnection, ep: Epoch, n: string, lines: string, name: string)
    requires BackupOk(c, ep, n) && n != name
    ensures BackupOk(c, Epoch(ep.base, ep.hist + [lines], ep.place[name := |ep.hist|]), n)
  {
    if c.dnsState.Some? && c.dnsState.value.ResolvConf? {
      assert (ep.hist + [lines])[..ep.place[n]] == ep.hist[..ep.place[n]];
    }
  }

  lemma CalmInv(m: Manager)
    requires !AnyHolder(m.connections)
    ensures EpochInv(m, Calm(m.file))
  {
    forall n | n in m.connections
      ensures BackupOk(m.connections[n], Calm(m.file), n)
    {
      assert !HoldsDns(m.connections[n]);
    }
  }

  lemma UpShape(m: Manager, name: string, backend: BackendKind, o: UpOutcome)
    ensures var n := Up(m, name, backend, o).0;
            && n.file == (match Writes(m, name, o) case Some(l) => l + m.file case None => m.file)
            && (n.connections == m.connections
                || (name !in m.connections && name in n.connections
                    && n.connections == m.connections[name := n.connections[name]]
                    && match n.connections[name].dnsState
                       case Some(ResolvConf(b)) => Writes(m, name, o).Some? && b == m.file
                       case _ => true))
    ensures Writes(m, name, o).Some? ==> Writes(m, name, o) != Some("")
    ensures name in m.connections ==> Writes(m, name, o) == None
  {
    hide DnsLines, Lookup;
  }

  lemma UpInv(m: Manager, ep: Epoch, name: string, backend: BackendKind, o: UpOutcome)
    requires EpochInv(m, ep)
    ensures EpochInv(Up(m, name, backend, o).0, EpochStep(m, ep, PUp(name, backend, o)))
  {
    UpShape(m, name, backend, o);
    var n := Up(m, name, backend, o).0;
    if !AnyHolder(n.connections) {
      CalmInv(n);
      return;
    }
    hide Up, Writes, Stack, AnyHolder, BackupOk;
    match Writes(m, name, o)
    case None =>
      assert n.file == m.file;
      NewHolderWithoutFile(m, ep, name, n);
    case Some(lines) =>
      StackSnoc(ep.base, ep.hist, lines);
      var ep' := Epoch(ep.base, ep.hist + [lines], ep.place[name := |ep.hist|]);
      forall k | k in n.connections
        ensures BackupOk(n.connections[k], ep', k)
      {
        if k != name {
          BackupKept(m.connections[k], ep, k, lines, name);
        } else {
          OwnBackup(n.connections[k], m.file, ep, lines, name);
        }
      }
  }

  lemma OwnBackup(c: ActiveConnection, file: string, ep: Epoch, lines: string, name: string)
    requires match c.dnsState case Some(ResolvConf(b)) => b == file case _ => true
    requires file == Stack(ep.base, ep.hist)
    ensures BackupOk(c, Epoch(ep.base, ep.hist + [lines], ep.place[name := |ep.hist|]), name)
  {
    assert (ep.hist + [lines])[..|ep.hist|] == ep.hist;
  }

  lemma NewHolderWithoutFile(m: Manager, ep: Epoch, name: string, n: Manager)
    requires EpochInv(m, ep) && AnyHolder(n.connections) && n.file == m.file
    requires n.connections == m.connections
             || (name in n.connections && n.connections == m.connections[name := n.connections[name]]
                 && match n.connections[name].dnsState case Some(ResolvConf(_)) => false case _ => true)
    ensures EpochInv(n, ep)
  {
    hide Stack, AnyHolder;
  }

  lemma DownInv(m: Manager, ep: Epoch, name: string, ok: bool)
    requires EpochInv(m, ep)
    ensures EpochInv(Down(m, name, ok).0, EpochStep(m, ep, PDown(name, ok)))
  {
    var n := Down(m, name, ok).0;
    if !AnyHolder(n.connections) {
      CalmInv(n);
    } else {
      hide Stack;
    }
  }

  lemma StepInv(m: Manager, ep: Epoch, p: Prim)
    requires EpochInv(m, ep)
    ensures EpochInv(Apply(m, p), EpochStep(m, ep, p))
  {
    hide Up, Down, BackupOk, Stack, AnyHolder, EpochInv;
    match p
    case PUp(name, backend, o) => UpInv(m, ep, name, backend, o);
    case PDown(name, ok) => DownInv(m, ep, name, ok);
    case PConfig(_) => ConfigInv(m, ep, p);
  }

  lemma ConfigInv(m: Manager, ep: Epoch, p: Prim)
    requires EpochInv(m, ep) && p.PConfig?
    ensures EpochInv(Apply(m, p), EpochStep(m, ep, p))
  {
    hide Stack, BackupOk;
  }

  lemma {:induction false} RunInv(m: Manager, ep: Epoch, ps: seq<Prim>)
    requires EpochInv(m, ep)
    ensures EpochInv(ApplyAll(m, ps), EpochOf(m, ep, ps))
    decreases |ps|
  {
    hide EpochInv, Apply, EpochStep;
    if ps == [] {
    } else {
      StepInv(m, ep, ps[0]);
      RunInv(Apply(m, ps[0]), EpochStep(m, ep, ps[0]), ps[1..]);
    }
  }

  // ---- Whole runs of commands ----

  function Processed(m: Manager, cs: seq<(Command, World)>): Manager
    decreases |cs|
  {
    if cs == [] then m else Processed(Process(m, cs[0].0, cs[0].1).0, cs[1..])
  }

  function RunPrims(m: Manager, cs: seq<(Command, World)>): seq<Prim>
    decreases |cs|
  {
    if cs == [] then []
    else ProcessPrims(m, cs[0].0, cs[0].1) + RunPrims(Process(m, cs[0].0, cs[0].1).0, cs[1..])
  }

  lemma {:induction false} ProcessedIsPrims(m: Manager, cs: seq<(Command, World)>)
    ensures ApplyAll(m, RunPrims(m, cs)) == Processed(m, cs)
    decreases |cs|
  {
    hide Process, ProcessPrims;
    if cs == [] {
    } else {
      var next := Process(m, cs[0].0, cs[0].1).0;
      ProcessIsPrims(m, cs[0].0, cs[0].1);
      ProcessedIsPrims(next, cs[1..]);
      ApplyAllAppend(m, ProcessPrims(m, cs[0].0, cs[0].1), RunPrims(next, cs[1..]));
    }
  }

  /** Over every run of daemon commands, with any failures of the outside world: the DNS file is always the
      lines prepended since the last moment nobody held DNS, newest first, then the text of that moment; and
      every file-based holder's backup is the file as it was just before that holder came up. */
  lemma DnsFileInEveryRun(config: AppConfig, file: string, cs: seq<(Command, World)>)
    ensures var m0 := Manager(config, map[], file, 0);
            EpochInv(Processed(m0, cs), EpochOf(m0, Calm(file), RunPrims(m0, cs)))
  {
    hide Processed, RunPrims, ApplyAll, EpochOf;
    var m0 := Manager(config, map[], file, 0);
    CalmInv(m0);
    ProcessedIsPrims(m0, cs);
    RunInv(m0, Calm(file), RunPrims(m0, cs));
  }

  // ---- When DNS is restored ----

  predicate LastHolder(m: Manager, name: string) {
    name in m.connections && HoldsDns(m.connections[name]) && !AnyHolder(m.connections - {name})
  }

  lemma {:induction false} StackGrows(base: string, hist: seq<string>, k: nat)
    requires k <= |hist| && NoneEmpty(hist)
    ensures |Stack(base, hist[..k])| >= |base| + k
    decreases k
  {
    if k == 0 {
    } else {
      StackGrows(base, hist, k - 1);
      assert hist[..k][..k - 1] == hist[..k - 1];
    }
  }

  /** How many of the lines prepended since the last holder-free moment stay behind when this holder is the
      last to go down: those from before it came up, or all if it holds no backup or the revert fails. */
  function LeftBehind(c: ActiveConnection, ep: Epoch, name: string, ok: bool): (left: nat)
    ensures left <= |ep.hist|
  {
    if ok && c.dnsState.Some? && c.dnsState.value.ResolvConf? && name in ep.place && ep.place[name] <= |ep.hist|
    then ep.place[name] else |ep.hist|
  }

  /** When the last holder goes down, the file becomes what it was just before that holder came up (it stays
      as it is for a `resolvectl` holder, or if the revert fails); so the text from before the epoch returns
      if and only if no line of the epoch stays behind. */
  lemma LastHolderDown(m: Manager, ep: Epoch, name: string, ok: bool)
    requires EpochInv(m, ep) && LastHolder(m, name)
    ensures var after := Down(m, name, ok).0;
            var left := LeftBehind(m.connections[name], ep, name, ok);
            && after.file == Stack(ep.base, ep.hist[..left])
            && (after.file == ep.base <==> left == 0)
            && after.reverts == m.reverts + 1
  {
    var left := LeftBehind(m.connections[name], ep, name, ok);
    assert BackupOk(m.connections[name], ep, name);
    assert ep.hist[..|ep.hist|] == ep.hist;
    StackGrows(ep.base, ep.hist, left);
    assert ep.hist[..0] == [];
  }

  /** In every run of daemon commands: when the connection holding DNS last goes down, the file is the text
      of the last holder-free moment under the lines that stay behind, and that text itself if and only if
      none does. */
  lemma RestoredIffFirstToWrite(config: AppConfig, file: string, cs: seq<(Command, World)>, name: string, ok: bool)
    requires LastHolder(Processed(Manager(config, map[], file, 0), cs), name)
    ensures var m0 := Manager(config, map[], file, 0);
            var m := Processed(m0, cs);
            var ep := EpochOf(m0, Calm(file), RunPrims(m0, cs));
            && name in m.connections
            && var left := LeftBehind(m.connections[name], ep, name, ok);
            && Down(m, name, ok).0.file == Stack(ep.base, ep.hist[..left])
            && (Down(m, name, ok).0.file == ep.base <==> left == 0)
  {
    hide Processed, RunPrims, EpochOf, EpochInv, Down, LeftBehind;
    DnsFileInEveryRun(config, file, cs);
    var m0 := Manager(config, map[], file, 0);
    LastHolderDown(Processed(m0, cs), EpochOf(m0, Calm(file), RunPrims(m0, cs)), name, ok);
  }

  // ---- The original text ----

  /** The lines a step leaves in the file with nobody left to take them out: an `up` that fails after its DNS
      step while nobody holds DNS, or the last holder's `down`. */
  function Leaves(m: Manager, ep: Epoch, p: Prim): seq<string> {
    match p
    case PUp(name, backend, o) =>
      if !AnyHolder(m.connections) && Up(m, name, backend, o).1.Err? && Writes(m, name, o).Some?
      then [Writes(m, name, o).value] else []
    case PDown(name, ok) =>
      if LastHolder(m, name) then ep.hist[..LeftBehind(m.connections[name], ep, name, ok)] else []
    case PConfig(_) => []
  }

  /** Everything a run leaves behind, oldest first. */
  function LeavesOf(m: Manager, ep: Epoch, ps: seq<Prim>): seq<string>
    decreases |ps|
  {
    if ps == [] then [] else Leaves(m, ep, ps[0]) + LeavesOf(Apply(m, ps[0]), EpochStep(m, ep, ps[0]), ps[1..])
  }

  /** The steps that keep the text of the holder-free moments. */
  predicate Restores(m: Manager, ep: Epoch, p: Prim) {
    match p
    case PUp(name, _, o) => AnyHolder(m.connections) || Writes(m, name, o).None? || (o.udp && o.backend)
    case PDown(name, ok) => LastHolder(m, name) ==> LeftBehind(m.connections[name], ep, name, ok) == 0
    case PConfig(_) => true
  }

  predicate AlwaysRestores(m: Manager, ep: Epoch, ps: seq<Prim>)
    decreases |ps|
  {
    ps != [] ==> Restores(m, ep, ps[0]) && AlwaysRestores(Apply(m, ps[0]), EpochStep(m, ep, ps[0]), ps[1..])
  }

  lemma {:induction false} StackAppend(base: string, a: seq<string>, b: seq<string>)
    ensures Stack(base, a + b) == Stack(Stack(base, a), b)
    decreases |b|
  {
    if b == [] {
      assert a + b == a;
    } else {
      var last := |b| - 1;
      StackAppend(base, a, b[..last]);
      assert a + b == (a + b[..last]) + [b[last]];
      StackSnoc(base, a + b[..last], b[last]);
    }
  }

  /** The text of the next holder-free moment is the one before under what the step leaves behind. */
  lemma BaseStep(m: Manager, ep: Epoch, p: Prim)
    requires EpochInv(m, ep)
    ensures EpochStep(m, ep, p).base == Stack(ep.base, Leaves(m, ep, p))
  {
    hide EpochInv, BackupOk, LeftBehind;
    assert Stack(ep.base, []) == ep.base;
    match p
    case PUp(name, backend, o) => BaseAfterUp(m, ep, name, backend, o);
    case PDown(name, ok) => BaseAfterDown(m, ep, name, ok);
    case PConfig(_) =>
  }

  lemma BaseAfterUp(m: Manager, ep: Epoch, name: string, backend: BackendKind, o: UpOutcome)
    requires EpochInv(m, ep)
    ensures var p := PUp(name, backend, o); EpochStep(m, ep, p).base == Stack(ep.base, Leaves(m, ep, p))
  {
    var n := Up(m, name, backend, o).0;
    UpShape(m, name, backend, o);
    UpHolds(m, name, backend, o);
    hide Up, Writes, BackupOk, AnyHolder;
    if Writes(m, name, o).Some? {
      StackSnoc(ep.base, [], Writes(m, name, o).value);
      assert [] + [Writes(m, name, o).value] == [Writes(m, name, o).value];
    }
  }

  /** An `up` ends with nobody holding DNS exactly when nobody did before and it failed, or set no DNS. */
  lemma UpHolds(m: Manager, name: string, backend: BackendKind, o: UpOutcome)
    ensures var (n, r) := Up(m, name, backend, o);
            && (AnyHolder(m.connections) ==> AnyHolder(n.connections))
            && (r.Err? ==> n.connections == m.connections)
            && (r.Ok? && Writes(m, name, o).Some? ==> AnyHolder(n.connections))
  {
    hide DnsLines, Lookup;
    var n := Up(m, name, backend, o).0;
    if AnyHolder(m.connections) {
      var k :| k in m.connections && HoldsDns(m.connections[k]);
      assert k in n.connections && (name !in m.connections ==> n.connections[k] == m.connections[k]);
    }
    if Up(m, name, backend, o).1.Ok? && Writes(m, name, o).Some? {
      assert HoldsDns(n.connections[name]);
    }
  }

  lemma BaseAfterDown(m: Manager, ep: Epoch, name: string, ok: bool)
    requires EpochInv(m, ep)
    ensures EpochStep(m, ep, PDown(name, ok)).base == Stack(ep.base, Leaves(m, ep, PDown(name, ok)))
  {
    if LastHolder(m, name) {
      LastHolderDown(m, ep, name, ok);
    } else {
      OtherDown(m, name, ok);
      if name in m.connections {
        HolderSplit(m.connections, name);
      }
    }
    hide BackupOk, LeftBehind, AnyHolder;
  }

  lemma {:induction false} BaseOfRun(m: Manager, ep: Epoch, ps: seq<Prim>)
    requires EpochInv(m, ep)
    ensures EpochOf(m, ep, ps).base == Stack(ep.base, LeavesOf(m, ep, ps))
    decreases |ps|
  {
    hide EpochInv, Apply, EpochStep, Leaves;
    if ps == [] {
    } else {
      StepInv(m, ep, ps[0]);
      BaseStep(m, ep, ps[0]);
      var next, ep' := Apply(m, ps[0]), EpochStep(m, ep, ps[0]);
      BaseOfRun(next, ep', ps[1..]);
      StackAppend(ep.base, Leaves(m, ep, ps[0]), LeavesOf(next, ep', ps[1..]));
    }
  }

  /** After the DNS step only the socket and the backend can stop an `up`. */
  lemma WriterFails(m: Manager, name: string, backend: BackendKind, o: UpOutcome)
    requires Writes(m, name, o).Some?
    ensures Up(m, name, backend, o).1.Ok? <==> o.udp && o.backend
  {
    hide DnsLines, Lookup;
  }

  lemma LeavesNoEmpty(m: Manager, ep: Epoch, p: Prim)
    requires EpochInv(m, ep)
    ensures NoneEmpty(Leaves(m, ep, p))
    ensures Leaves(m, ep, p) == [] <==> Restores(m, ep, p)
  {
    if p.PUp? {
      UpShape(m, p.name, p.backend, p.o);
      if Writes(m, p.name, p.o).Some? {
        WriterFails(m, p.name, p.backend, p.o);
      }
    }
    hide Up, Writes, Stack, BackupOk, LeftBehind, AnyHolder;
  }

  lemma {:induction false} LeavesOfNoEmpty(m: Manager, ep: Epoch, ps: seq<Prim>)
    requires EpochInv(m, ep)
    ensures NoneEmpty(LeavesOf(m, ep, ps))
    ensures LeavesOf(m, ep, ps) == [] <==> AlwaysRestores(m, ep, ps)
    decreases |ps|
  {
    hide EpochInv, Apply, EpochStep, Leaves, Restores;
    if ps == [] {
    } else {
      StepInv(m, ep, ps[0]);
      LeavesNoEmpty(m, ep, ps[0]);
      LeavesOfNoEmpty(Apply(m, ps[0]), EpochStep(m, ep, ps[0]), ps[1..]);
    }
  }

  /** Over every run of daemon commands the file is the text from before the first command, under everything
      the run left behind, under the lines prepended since the last holder-free moment.  Lines left behind are
      never taken out again, so with no connection holding DNS the original text is back if and only if every
      step restored: no `up` failed after writing the file while nobody held DNS, and no last holder's `down`
      left a line behind. */
  lemma FileOverOriginalText(config: AppConfig, file: string, cs: seq<(Command, World)>)
    ensures var m0 := Manager(config, map[], file, 0);
            var ps := RunPrims(m0, cs);
            var m, ep, left := Processed(m0, cs), EpochOf(m0, Calm(file), ps), LeavesOf(m0, Calm(file), ps);
            && m.file == Stack(file, left + ep.hist)
            && (!AnyHolder(m.connections) ==>
                  m.file == Stack(file, left) && (m.file == file <==> AlwaysRestores(m0, Calm(file), ps)))
  {
    hide Processed, RunPrims, EpochOf, LeavesOf, AlwaysRestores, BackupOk, AnyHolder;
    var m0 := Manager(config, map[], file, 0);
    var ps := RunPrims(m0, cs);
    DnsFileInEveryRun(config, file, cs);
    CalmFromStart(m0);
    BaseOfRun(m0, Calm(file), ps);
    LeavesOfNoEmpty(m0, Calm(file), ps);
    var left, hist := LeavesOf(m0, Calm(file), ps), EpochOf(m0, Calm(file), ps).hist;
    StackAppend(file, left, hist);
    StackGrows(file, left, |left|);
    assert left[..|left|] == left && left + [] == left;
  }

  lemma CalmFromStart(m0: Manager)
    requires m0.connections == map[]
    ensures EpochInv(m0, Calm(m0.file))
  {
    CalmInv(m0);
  }

  /** Any other `down` leaves the file and the revert count alone. */
  lemma OtherDown(m: Manager, name: string, ok: bool)
    requires !LastHolder(m, name)
    ensures Down(m, name, ok).0.file == m.file && Down(m, name, ok).0.reverts == m.reverts
  {
    hide AnyHolder;
  }

  // ---- Where restoring fails ----

  /** An `up` that fails after its DNS step leaves its lines in the file with nobody to take them out. */
  lemma FailedUpKeepsLines(m: Manager, name: string, backend: BackendKind, o: UpOutcome)
    requires Up(m, name, backend, o).1.Err?
    ensures var after := Up(m, name, backend, o).0;
            && after.connections == m.connections
            && (after.file == m.file <==> Writes(m, name, o).None?)
            && (Writes(m, name, o).Some? ==> after.file == Writes(m, name, o).value + m.file)
  {
    hide DnsLines, Lookup;
  }

  /** A later cycle does not heal it: bringing any connection up and down again, starting with no holder,
      puts the file back to what it was at the start of the cycle, leaked lines included. */
  lemma CycleRestoresWhatItFound(m: Manager, name: string, backend: BackendKind, o: UpOutcome)
    requires !AnyHolder(m.connections) && Up(m, name, backend, o).1.Ok?
    ensures var up := Up(m, name, backend, o).0; Down(up, name, true).0.file == m.file
    ensures var up := Up(m, name, backend, o).0; Down(up, name, true).0.connections == m.connections
  {
    hide DnsLines, Lookup;
    var up := Up(m, name, backend, o).0;
    assert name !in m.connections;
    assert up.connections - {name} == m.connections;
  }

  /** A concrete case: one connection that only sets a search domain, an empty DNS file.  Its first `up` fails
      to bind its socket; after a clean `up` and `down` the line of the failed one is still there. */
  lemma FailedUpExample(key: Key)
    ensures var iface := InterfaceConfig(key, 0, [], [], ["corp"], 0, 0, [], [], [], []);
            var peer := PeerConfig("", key, None, Some("h:1"), ["0.0.0.0/0"], 0);
            var o := UpOutcome(true, Some("tun0"), true, ByFile, true, true);
            var m := Manager([Entry("a", WgConfig(iface, [peer]))], map[], "", 0);
            var failed := Up(m, "a", Boringtun, o.(udp := false)).0;
            var after := Down(Up(failed, "a", Boringtun, o).0, "a", true).0;
            after.connections == map[] && after.file == "search corp\n"
  {
    var iface := InterfaceConfig(key, 0, [], [], ["corp"], 0, 0, [], [], [], []);
    var peer := PeerConfig("", key, None, Some("h:1"), ["0.0.0.0/0"], 0);
    var c := WgConfig(iface, [peer]);
    var o := UpOutcome(true, Some("tun0"), true, ByFile, true, true);
    var m := Manager([Entry("a", c)], map[], "", 0);
    assert Lookup(m.config, "a") == Some(c);
    assert Join(["corp"], " ") == "corp";
    assert DnsLines([], ["corp"]) == "search corp\n";
    hide DnsLines, Lookup, Join;
    var failed := Up(m, "a", Boringtun, o.(udp := false)).0;
    assert failed.file == "search corp\n" + "" == "search corp\n";
    CycleRestoresWhatItFound(failed, "a", Boringtun, o);
  }

  /** Both `up`s succeed by writing the file. */
  predicate BothWrite(m: Manager, a: string, oa: UpOutcome, b: string, ob: UpOutcome, backend: BackendKind) {
    && a != b
    && Up(m, a, backend, oa).1.Ok? && Writes(m, a, oa).Some?
    && Up(Up(m, a, backend, oa).0, b, backend, ob).1.Ok? && Writes(Up(m, a, backend, oa).0, b, ob).Some?
  }

  /** Two overlapping tunnels: taken down in reverse order they restore the file; taken down in the order
      they came up they leave the first one's lines in it, though no connection is left. */
  lemma OverlapLeavesLines(m: Manager, a: string, oa: UpOutcome, b: string, ob: UpOutcome, backend: BackendKind)
    requires !AnyHolder(m.connections) && BothWrite(m, a, oa, b, ob, backend)
    ensures var both := Up(Up(m, a, backend, oa).0, b, backend, ob).0;
            && Down(Down(both, b, true).0, a, true).0.file == m.file
            && Down(Down(both, a, true).0, b, true).0.file == Writes(m, a, oa).value + m.file
            && Down(Down(both, a, true).0, b, true).0.file != m.file
            && Down(Down(both, a, true).0, b, true).0.connections == m.connections
  {
    hide DnsLines, Lookup;
    var one := Up(m, a, backend, oa).0;
    var both := Up(one, b, backend, ob).0;
    UpShape(m, a, backend, oa);
    UpShape(one, b, backend, ob);
    hide UpRefusal;
    assert HoldsDns(both.connections[a]) && HoldsDns(both.connections[b]);
    assert (both.connections - {b})[a] == both.connections[a];
    assert (both.connections - {a})[b] == both.connections[b];
    assert both.connections - {b} - {a} == m.connections;
    assert both.connections - {a} - {b} == m.connections;
  }

  /** A concrete case: two connections that only set a search domain, an empty DNS file, no failures.
      After both came up and went down in the same order, the first one's line is still there. */
  lemma OverlapExample(key: Key)
    ensures var iface := InterfaceConfig(key, 0, [], [], ["corp"], 0, 0, [], [], [], []);
            var peer := PeerConfig("", key, None, Some("h:1"), ["0.0.0.0/0"], 0);
            var config := [Entry("a", WgConfig(iface, [peer])), Entry("b", WgConfig(iface, [peer]))];
            var o := UpOutcome(true, Some("tun0"), true, ByFile, true, true);
            var m := Manager(config, map[], "", 0);
            var both := Up(Up(m, "a", Boringtun, o).0, "b", Boringtun, o).0;
            var after := Down(Down(both, "a", true).0, "b", true).0;
            after.connections == map[] && after.file == "search corp\n"
  {
    var iface := InterfaceConfig(key, 0, [], [], ["corp"], 0, 0, [], [], [], []);
    var peer := PeerConfig("", key, None, Some("h:1"), ["0.0.0.0/0"], 0);
    var c := WgConfig(iface, [peer]);
    var config := [Entry("a", c), Entry("b", c)];
    assert config[1..] == [Entry("b", c)] && config[1..][0].name == "b";
    assert Lookup(config, "a") == Some(c) && Lookup(config[1..], "b") == Some(c) && "a" != "b";
    var o := UpOutcome(true, Some("tun0"), true, ByFile, true, true);
    var m := Manager(config, map[], "", 0);
    assert Join(["corp"], " ") == "corp";
    assert DnsLines([], ["corp"]) == "search corp\n";
    hide DnsLines, Lookup, Join;
    assert BothWrite(m, "a", o, "b", o, Boringtun);
    OverlapLeavesLines(m, "a", o, "b", o, Boringtun);
    assert "search corp\n" + "" == "search corp\n";
  }

  // ---- down_all ----

  /** Whatever the order, `down_all` ends with nothing active and runs exactly one DNS revert if any
      connection held DNS, none otherwise. */
  lemma {:induction false} DownAllResult(m: Manager, order: seq<string>, ok: string -> bool)
    requires ListsKeys(order, m.connections)
    ensures DownEach(m, order, ok).connections == map[]
    ensures DownEach(m, order, ok).reverts == m.reverts + if AnyHolder(m.connections) then 1 else 0
    decreases |order|
  {
    if order == [] {
      assert m.connections == map[];
    } else {
      RestListsKeys(m.connections, order);
      hide ListsKeys, RevertDns;
      DownAllResult(Down(m, order[0], ok(order[0])).0, order[1..], ok);
      DownKeepsHolders(m, order[0], ok(order[0]));
    }
  }

  lemma DownKeepsHolders(m: Manager, x: string, ok: bool)
    requires x in m.connections
    ensures var next := Down(m, x, ok).0;
            && next.connections == m.connections - {x}
            && next.reverts == m.reverts + (if AnyHolder(m.connections) && !AnyHolder(next.connections) then 1 else 0)
            && next.file == (if AnyHolder(m.connections) && !AnyHolder(next.connections)
                             then RevertDns(m.file, m.connections[x].dnsState.value, ok) else m.file)
            && (AnyHolder(m.connections) && !AnyHolder(next.connections) ==> HoldsDns(m.connections[x]))
            && (AnyHolder(next.connections) ==> AnyHolder(m.connections))
  {
    hide RevertDns;
    HolderSplit(m.connections, x);
  }

  lemma HolderSplit(connections: map<string, ActiveConnection>, x: string)
    requires x in connections
    ensures AnyHolder(connections) <==> HoldsDns(connections[x]) || AnyHolder(connections - {x})
  {
    var rest := connections - {x};
    assert forall n :: n in rest ==> n in connections && rest[n] == connections[n];
    if AnyHolder(connections) {
      var n :| n in connections && HoldsDns(connections[n]);
      if n != x {
        assert n in rest;
      }
    }
  }

  /** The file `down_all` leaves: untouched if nobody held DNS, otherwise reverted with the state of the
      last holder in the order. */
  lemma {:induction false} DownAllFile(m: Manager, order: seq<string>, ok: string -> bool)
    requires ListsKeys(order, m.connections)
    ensures !AnyHolder(m.connections) ==> DownEach(m, order, ok).file == m.file
    ensures AnyHolder(m.connections) ==>
              exists i :: 0 <= i < |order| && LastHolderIn(m.connections, order, i)
                && DownEach(m, order, ok).file == RevertDns(m.file, m.connections[order[i]].dnsState.value, ok(order[i]))
    decreases |order|
  {
    if order != [] {
      var x, rest := order[0], order[1..];
      var next := Down(m, x, ok(x)).0;
      RestListsKeys(m.connections, order);
      DownKeepsHolders(m, x, ok(x));
      hide Down, RevertDns, AnyHolder;
      DownAllFile(next, rest, ok);
      if AnyHolder(next.connections) {
        var i :| 0 <= i < |rest| && LastHolderIn(next.connections, rest, i)
          && DownEach(next, rest, ok).file == RevertDns(next.file, next.connections[rest[i]].dnsState.value, ok(rest[i]));
        LastHolderShift(m.connections, order, i);
      } else if AnyHolder(m.connections) {
        FirstIsLastHolder(m.connections, order);
      }
    } else {
      hide RevertDns;
    }
  }

  /** Position `i` of the order holds DNS and no later one does. */
  ghost predicate LastHolderIn(connections: map<string, ActiveConnection>, order: seq<string>, i: nat)
    requires i < |order| && forall n :: n in order ==> n in connections
  {
    HoldsDns(connections[order[i]]) && forall j :: i < j < |order| ==> !HoldsDns(connections[order[j]])
  }

  lemma LastHolderShift(connections: map<string, ActiveConnection>, order: seq<string>, i: nat)
    requires ListsKeys(order, connections) && order != [] && i < |order[1..]|
    requires forall n :: n in order[1..] ==> n in connections - {order[0]}
    requires LastHolderIn(connections - {order[0]}, order[1..], i)
    ensures LastHolderIn(connections, order, i + 1)
  {
    forall j | i + 1 < j < |order|
      ensures !HoldsDns(connections[order[j]])
    {
      assert order[j] == order[1..][j - 1];
    }
  }

  lemma FirstIsLastHolder(connections: map<string, ActiveConnection>, order: seq<string>)
    requires ListsKeys(order, connections) && order != []
    requires HoldsDns(connections[order[0]]) && !AnyHolder(connections - {order[0]})
    ensures LastHolderIn(connections, order, 0)
  {
    forall j | 0 < j < |order|
      ensures !HoldsDns(connections[order[j]])
    {
      assert order[j] in connections - {order[0]};
    }
  }

  lemma RestListsKeys(connections: map<string, ActiveConnection>, order: seq<string>)
    requires ListsKeys(order, connections) && order != []
    ensures ListsKeys(order[1..], connections - {order[0]})
  {
    var rest := order[1..];
    assert forall j :: 0 <= j < |rest| ==> rest[j] == order[j + 1];
    forall n
      ensures n in rest <==> n in connections - {order[0]}
    {
      if n in connections - {order[0]} {
        var i :| 0 <= i < |order| && order[i] == n;
        assert rest[i - 1] == n;
      }
    }
  }

  // ---- up_all ----

  function SetOf(names: seq<string>): set<string> {
    set n | n in names
  }

  /** `up_all` never touches a connection that was already active.  On success every name is active; on an
      error the names that became active are the ones before the failing name, which was inactive. */
  lemma {:induction false} UpEachResult(m: Manager, names: seq<string>, backend: BackendKind, o: string -> UpOutcome)
    ensures var (n, r) := UpEach(m, names, backend, o);
            && (forall k :: k in m.connections ==> k in n.connections && n.connections[k] == m.connections[k])
            && n.config == m.config && n.reverts == m.reverts
            && match r
               case Ok(_) => n.connections.Keys == m.connections.Keys + SetOf(names)
               case Err(_) => exists j :: 0 <= j < |names| && names[j] !in n.connections
                                && n.connections.Keys == m.connections.Keys + SetOf(names[..j])
    decreases |names|
  {
    if names == [] {
      assert m.connections.Keys + SetOf(names) == m.connections.Keys;
    } else {
      var x, rest := names[0], names[1..];
      hide UpEach;
      UpEachUnfold(m, names, backend, o);
      if x in m.connections {
        UpEachResult(m, rest, backend, o);
        UpEachShift(m.connections.Keys, names, UpEach(m, rest, backend, o).0.connections.Keys);
      } else {
        UpOnly(m, x, backend, o(x));
        var (next, r) := Up(m, x, backend, o(x));
        hide Up;
        if r.Err? {
          assert names[..0] == [] && m.connections.Keys + SetOf(names[..0]) == m.connections.Keys;
        } else {
          UpEachResult(next, rest, backend, o);
          UpEachShift(m.connections.Keys, names, UpEach(next, rest, backend, o).0.connections.Keys);
        }
      }
    }
  }

  /** `up_all`: on success every configured connection is active; on an error the newly active ones are an
      initial run of the configured names, in key order, up to the inactive one that failed. */
  lemma UpAllResult(m: Manager, backend: BackendKind, o: string -> UpOutcome)
    ensures var (n, r) := UpAll(m, backend, o);
            && (forall k :: k in m.connections ==> k in n.connections && n.connections[k] == m.connections[k])
            && (r.Ok? ==> n.connections.Keys == m.connections.Keys + SetOf(NamesOf(m.config)))
            && (r.Ok? ==> forall e :: e in m.config ==> e.name in n.connections)
            && (r.Err? ==> exists j :: 0 <= j < |m.config| && m.config[j].name !in n.connections
                             && n.connections.Keys == m.connections.Keys + SetOf(NamesOf(m.config)[..j]))
  {
    hide UpEach;
    UpEachResult(m, NamesOf(m.config), backend, o);
    var (n, r) := UpAll(m, backend, o);
    if r.Ok? {
      forall e | e in m.config
        ensures e.name in n.connections
      {
        var i :| 0 <= i < |m.config| && m.config[i] == e;
        assert NamesOf(m.config)[i] in SetOf(NamesOf(m.config));
      }
    } else {
      var names := NamesOf(m.config);
      var j :| 0 <= j < |names| && names[j] !in n.connections
               && n.connections.Keys == m.connections.Keys + SetOf(names[..j]);
      assert m.config[j].name == names[j];
    }
  }

  lemma UpEachUnfold(m: Manager, names: seq<string>, backend: BackendKind, o: string -> UpOutcome)
    requires names != []
    ensures UpEach(m, names, backend, o) ==
            if names[0] in m.connections then UpEach(m, names[1..], backend, o)
            else if Up(m, names[0], backend, o(names[0])).1.Err? then Up(m, names[0], backend, o(names[0]))
            else UpEach(Up(m, names[0], backend, o(names[0])).0, names[1..], backend, o)
  {
    hide Up;
  }

  lemma UpOnly(m: Manager, x: string, backend: BackendKind, o: UpOutcome)
    requires x !in m.connections
    ensures var (n, r) := Up(m, x, backend, o);
            && n.config == m.config && n.reverts == m.reverts
            && (forall k :: k in m.connections ==> k in n.connections && n.connections[k] == m.connections[k])
            && n.connections.Keys == m.connections.Keys + (if r.Ok? then {x} else {})
  {
    hide ApplyDns, Lookup;
  }

  /** Sets of names over a list and over its tail. */
  lemma UpEachShift(keys: set<string>, names: seq<string>, after: set<string>)
    requires names != []
    ensures SetOf(names) == {names[0]} + SetOf(names[1..])
    ensures forall j :: 0 <= j < |names[1..]| ==>
              (SetOf(names[..j + 1]) == {names[0]} + SetOf(names[1..][..j]) && names[1..][j] == names[j + 1])
  {
    assert names == [names[0]] + names[1..];
    forall j | 0 <= j < |names[1..]|
      ensures SetOf(names[..j + 1]) == {names[0]} + SetOf(names[1..][..j])
    {
      assert names[..j + 1] == [names[0]] + names[1..][..j];
    }
  }
}

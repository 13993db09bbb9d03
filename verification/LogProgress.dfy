/** What the steps of the log pipeline achieve: what a late subscriber is shown, that everything buffered can be
    sent and received, and what a client that falls behind loses. */
module LogProgress {
  import opened Wrappers
  import opened LogBuffers
  import opened LogPipeline

  // ---- What a late subscriber sees ----

  /** All entries added so far that are not sent, not on their way and not lost: exactly the buffered ones. */
  predicate StillBuffered(s: State, x: nat) {
    x < s.next && x !in s.sent && x !in s.inFlight && x !in s.evicted
  }

  lemma BufferHoldsTheRest(s: State, x: nat)
    requires EntriesInv(s)
    ensures x in s.buffer <==> StillBuffered(s, x)
  {
    var p, k := Pipeline(s), |s.sent| + |s.inFlight|;
    assert forall i :: 0 <= i < |s.buffer| ==> p[k + i] == s.buffer[i];
    assert forall i :: 0 <= i < k ==> p[i] == (s.sent + s.inFlight)[i];
    if x in s.buffer {
      var i :| 0 <= i < |s.buffer| && s.buffer[i] == x;
      assert p[k + i] == x && p[k + i] in p;
      assert forall j :: 0 <= j < k ==> p[j] < p[k + i];
      assert x !in s.sent + s.inFlight;
    }
  }

  predicate NeverLeaves(id: nat, events: seq<Event>) {
    forall e :: e in events ==> e != Disconnect(id)
  }

  /** Once read, the history of a client stays what it is, and a replayed part stays replayed. */
  lemma {:induction false} HistoryStays(s: State, events: seq<Event>, id: nat)
    requires id in s.clients && s.clients[id].snapshot.Some? && NeverLeaves(id, events)
    ensures var n := Run(s, events);
            && id in n.clients && n.clients[id].snapshot == s.clients[id].snapshot
            && n.clients[id].replayed >= s.clients[id].replayed
    decreases |events|
  {
    if events == [] {
    } else {
      assert events[0] in events && forall e :: e in events[1..] ==> e in events;
      StepKeepsHistory(s, events[0], id);
      hide Step;
      HistoryStays(Step(s, events[0]), events[1..], id);
    }
  }

  lemma StepKeepsHistory(s: State, e: Event, id: nat)
    requires id in s.clients && s.clients[id].snapshot.Some? && e != Disconnect(id)
    ensures var n := Step(s, e);
            && id in n.clients && n.clients[id].snapshot == s.clients[id].snapshot
            && n.clients[id].replayed >= s.clients[id].replayed
  {
    hide Pushed;
  }

  /** In every run: when a subscribed client reads the buffer, its history is, in order, every entry added so far
      that has not been drained or evicted; and however the run goes on, once replayed that history opens what
      the client is given, even if its entries are evicted later. */
  lemma LateSubscriberSees(capacity: nat, window: nat, before: seq<Event>, id: nat, after: seq<Event>)
    requires capacity > 0 && window > 0 && NeverLeaves(id, after)
    requires var s := Run(Init(capacity, window), before); id in s.clients && s.clients[id].snapshot.None?
    ensures var s := Run(Init(capacity, window), before);
            var n := Run(Step(s, TakeSnapshot(id)), after);
            && id in n.clients && n.clients[id].snapshot.Some?
            && var history := n.clients[id].snapshot.value;
            && Increasing(history) && (forall x :: x in history <==> StillBuffered(s, x))
            && (n.clients[id].replayed == |history| ==> history <= Stream(n.clients[id]))
  {
    RunInv(Init(capacity, window), before);
    var s := Run(Init(capacity, window), before);
    SentIncreasing(s);
    forall x: nat
      ensures x in s.buffer <==> StillBuffered(s, x)
    {
      BufferHoldsTheRest(s, x);
    }
    var t := Step(s, TakeSnapshot(id));
    assert t.clients[id].snapshot == Some(s.buffer);
    hide Run, Step, Increasing, StillBuffered;
    HistoryStays(t, after, id);
  }

  // ---- The broadcaster ----

  function Times(e: Event, k: nat): seq<Event> {
    if k == 0 then [] else [e] + Times(e, k - 1)
  }

  lemma {:induction false} RunAppend(s: State, a: seq<Event>, b: seq<Event>)
    ensures Run(s, a + b) == Run(Run(s, a), b)
    decreases |a|
  {
    hide Step;
    if a == [] {
      assert a + b == b;
    } else {
      assert (a + b)[0] == a[0] && (a + b)[1..] == a[1..] + b;
      RunAppend(Step(s, a[0]), a[1..], b);
    }
  }

  lemma TimesRun(s: State, e: Event, k: nat)
    requires k > 0
    ensures Run(s, Times(e, k)) == Run(Step(s, e), Times(e, k - 1))
  {
    hide Step;
    assert Times(e, k)[1..] == Times(e, k - 1);
  }

  /** The drained entries go out one by one, in order. */
  lemma {:induction false} SendsAll(s: State)
    ensures Run(s, Times(SendOne, |s.inFlight|)) == s.(sent := s.sent + s.inFlight, inFlight := [])
    decreases |s.inFlight|
  {
    if s.inFlight == [] {
      assert s.sent + s.inFlight == s.sent;
    } else {
      TimesRun(s, SendOne, |s.inFlight|);
      SendsAll(Step(s, SendOne));
      assert s.sent + [s.inFlight[0]] + s.inFlight[1..] == s.sent + s.inFlight;
    }
  }

  /** The broadcaster's round: finish sending, drain, send all.  Everything in the pipeline is then sent, nothing
      is lost, and no client is touched. */
  lemma RoundSendsEverything(s: State)
    ensures var round := Times(SendOne, |s.inFlight|) + [Drain] + Times(SendOne, |s.buffer|);
            Run(s, round) == s.(sent := Pipeline(s), inFlight := [], buffer := [])
  {
    SendsAll(s);
    var idle := s.(sent := s.sent + s.inFlight, inFlight := []);
    var drained := idle.(inFlight := s.buffer, buffer := []);
    RunAppend(s, Times(SendOne, |s.inFlight|), [Drain]);
    assert Run(idle, [Drain]) == drained by {
      assert [Drain][1..] == [];
    }
    RunAppend(s, Times(SendOne, |s.inFlight|) + [Drain], Times(SendOne, |s.buffer|));
    SendsAll(drained);
    assert drained.sent + drained.inFlight == Pipeline(s);
  }

  /** Adding: the new entry is the newest in the buffer; the oldest goes, and only it, when the buffer is full. */
  lemma AddKeepsTheLast(s: State)
    requires s.capacity > 0 && |s.buffer| <= s.capacity
    ensures var n := Step(s, Add);
            && n.next == s.next + 1
            && n.buffer == LastN(s.buffer + [s.next], s.capacity)
            && n.evicted == s.evicted + (if |s.buffer| == s.capacity then {s.buffer[0]} else {})
            && n == s.(next := n.next, buffer := n.buffer, evicted := n.evicted)
  {
  }

  /** Draining waits until the drained entries are sent, and takes the whole buffer. */
  lemma DrainTakesAll(s: State)
    ensures s.inFlight != [] ==> Step(s, Drain) == s
    ensures s.inFlight == [] ==> Step(s, Drain) == s.(inFlight := s.buffer, buffer := [])
  {
  }

  // ---- The clients ----

  /** A new client starts where the broadcast is. */
  lemma SubscriberStarts(s: State, id: nat)
    requires id !in s.clients
    ensures var n := Step(s, Subscribe(id));
            && n == s.(clients := n.clients) && n.clients.Keys == s.clients.Keys + {id}
            && var c := n.clients[id];
            c.subscribedAt == c.pos == |s.sent| && c.snapshot == None && Stream(c) == [] && c.missed == 0
  {
  }

  /** The step of one client touches no other, nor the entries. */
  lemma OnlyThatClient(s: State, e: Event, id: nat, other: nat)
    requires e in {Subscribe(id), TakeSnapshot(id), Replay(id), Receive(id), Disconnect(id)} && other != id
    ensures var n := Step(s, e);
            && n == s.(clients := n.clients)
            && (other in n.clients <==> other in s.clients)
            && (other in s.clients ==> n.clients[other] == s.clients[other])
    ensures id !in Step(s, Disconnect(id)).clients
  {
    hide ReceiveStep;
  }

  /** The history is given entry by entry, and nothing live before it is finished. */
  lemma HistoryFirst(s: State, id: nat)
    requires id in s.clients && ClientInv(s, s.clients[id])
    ensures var c := s.clients[id];
            if c.snapshot.Some? && c.replayed < |c.snapshot.value|
            then && Step(s, Receive(id)) == s
                 && Step(s, Replay(id)).clients[id] == c.(replayed := c.replayed + 1)
                 && Stream(c.(replayed := c.replayed + 1)) == c.snapshot.value[..c.replayed + 1] + c.live
            else Step(s, Replay(id)) == s && (c.snapshot.None? ==> Step(s, Receive(id)) == s)
  {
    hide ReceiveStep, Increasing;
  }

  lemma {:induction false} ReplaysAll(s: State, id: nat, k: nat)
    requires id in s.clients && s.clients[id].snapshot.Some?
    requires s.clients[id].replayed + k == |s.clients[id].snapshot.value|
    ensures Run(s, Times(Replay(id), k)) == s.(clients := s.clients[id := s.clients[id].(replayed := |s.clients[id].snapshot.value|)])
    decreases k
  {
    if k == 0 {
      assert s.clients[id := s.clients[id]] == s.clients;
    } else {
      TimesRun(s, Replay(id), k);
      var n := Step(s, Replay(id));
      ReplaysAll(n, id, k - 1);
      assert n.clients[id := n.clients[id].(replayed := |s.clients[id].snapshot.value|)]
             == s.clients[id := s.clients[id].(replayed := |s.clients[id].snapshot.value|)];
    }
  }

  predicate Listening(s: State, id: nat) {
    && id in s.clients && s.clients[id].snapshot.Some?
    && s.clients[id].replayed == |s.clients[id].snapshot.value| && s.clients[id].pos <= |s.sent|
  }

  /** A client no further behind than the channel keeps receives everything sent, in order, and misses nothing. */
  lemma {:induction false} ReceivesAll(s: State, id: nat, k: nat)
    requires Listening(s, id) && s.clients[id].pos + k == |s.sent| && k <= s.window
    ensures var c := s.clients[id];
            Run(s, Times(Receive(id), k))
            == s.(clients := s.clients[id := c.(live := c.live + s.sent[c.pos..], pos := |s.sent|)])
    decreases k
  {
    var c := s.clients[id];
    if k == 0 {
      assert c.live + s.sent[c.pos..] == c.live && s.clients[id := c] == s.clients;
    } else {
      TimesRun(s, Receive(id), k);
      var n := Step(s, Receive(id));
      var d := c.(live := c.live + [s.sent[c.pos]], pos := c.pos + 1);
      assert n == s.(clients := s.clients[id := d]);
      ReceivesAll(n, id, k - 1);
      assert d.live + s.sent[d.pos..] == c.live + s.sent[c.pos..];
      var all := c.(live := c.live + s.sent[c.pos..], pos := |s.sent|);
      assert n.clients[id := all] == s.clients[id := all];
    }
  }

  /** A client further behind loses exactly the entries the channel no longer keeps, is told how many they are,
      and can then receive all the rest. */
  lemma FallingBehind(s: State, id: nat)
    requires Listening(s, id) && |s.sent| - s.clients[id].pos > s.window
    ensures var c, n := s.clients[id], Step(s, Receive(id));
            var d := n.clients[id];
            && n == s.(clients := s.clients[id := d])
            && d.pos == |s.sent| - s.window && d.live == c.live
            && d.missed == c.missed + |s.sent[c.pos..d.pos]|
            && Run(n, Times(Receive(id), s.window))
               == n.(clients := n.clients[id := d.(live := c.live + s.sent[d.pos..], pos := |s.sent|)])
  {
    var c, n := s.clients[id], Step(s, Receive(id));
    assert n.clients[id] == c.(missed := c.missed + (|s.sent| - c.pos - s.window), pos := |s.sent| - s.window);
    ReceivesAll(n, id, s.window);
  }
}

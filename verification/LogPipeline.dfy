/** The log pipeline as a concurrent protocol: threads add entries to the shared buffer, one broadcaster
    drains it and sends the entries one by one, and each streaming client subscribes, takes a snapshot of
    the buffer, replays it and then receives live entries.  Any interleaving of the steps is a run.
    Entries are numbered by order of addition. */
module LogPipeline {
  import opened Wrappers
  import opened LogBuffers

  datatype Client = Client(
    subscribedAt: nat,              // how many entries had been sent when it subscribed
    snapshot: Option<seq<nat>>,     // the buffer as read when its stream started
    replayed: nat,                  // how much of the snapshot it has been given
    pos: nat,                       // its place in the sequence of sent entries
    live: seq<nat>,                 // what it received from the broadcast
    missed: nat)                    // how many entries `Lagged` told it were lost

  datatype State = State(
    capacity: nat,                  // of the buffer
    window: nat,                    // how many sent entries the broadcast channel keeps
    next: nat,
    buffer: seq<nat>,
    inFlight: seq<nat>,             // drained and not yet sent
    sent: seq<nat>,
    evicted: set<nat>,
    clients: map<nat, Client>)

  datatype Event =
    | Add
    | Drain
    | SendOne
    | Subscribe(id: nat)
    | TakeSnapshot(id: nat)
    | Replay(id: nat)
    | Receive(id: nat)
    | Disconnect(id: nat)

  function Init(capacity: nat, window: nat): State {
    State(capacity, window, 0, [], [], [], {}, map[])
  }

  /** One step of the stream task of a client. */
  function ReceiveStep(s: State, c: Client): Client
    requires c.pos <= |s.sent|
  {
    if c.pos == |s.sent| then c
    else if |s.sent| - c.pos > s.window
    then c.(missed := c.missed + (|s.sent| - c.pos - s.window), pos := |s.sent| - s.window)
    else c.(live := c.live + [s.sent[c.pos]], pos := c.pos + 1)
  }

  /** One step; a step whose turn it is not leaves everything as it is. */
  function Step(s: State, e: Event): State {
    match e
    case Add =>
      s.(next := s.next + 1, buffer := Pushed(s.buffer, s.capacity, s.next),
         evicted := if |s.buffer| == s.capacity && s.buffer != [] then s.evicted + {s.buffer[0]} else s.evicted)
    case Drain => if s.inFlight == [] then s.(inFlight := s.buffer, buffer := []) else s
    case SendOne =>
      if s.inFlight == [] then s else s.(sent := s.sent + [s.inFlight[0]], inFlight := s.inFlight[1..])
    case Subscribe(id) =>
      if id in s.clients then s else s.(clients := s.clients[id := Client(|s.sent|, None, 0, |s.sent|, [], 0)])
    case TakeSnapshot(id) =>
      if id in s.clients && s.clients[id].snapshot.None?
      then s.(clients := s.clients[id := s.clients[id].(snapshot := Some(s.buffer))]) else s
    case Replay(id) =>
      if id in s.clients && s.clients[id].snapshot.Some? && s.clients[id].replayed < |s.clients[id].snapshot.value|
      then s.(clients := s.clients[id := s.clients[id].(replayed := s.clients[id].replayed + 1)]) else s
    case Receive(id) =>
      if id in s.clients && s.clients[id].snapshot.Some? && s.clients[id].replayed == |s.clients[id].snapshot.value|
         && s.clients[id].pos <= |s.sent|
      then s.(clients := s.clients[id := ReceiveStep(s, s.clients[id])]) else s
    case Disconnect(id) => s.(clients := s.clients - {id})
  }

  function Run(s: State, events: seq<Event>): State
    decreases |events|
  {
    if events == [] then s else Run(Step(s, events[0]), events[1..])
  }

  // ---- The entries ----

  predicate Increasing(s: seq<nat>) {
    forall i, j :: 0 <= i < j < |s| ==> s[i] < s[j]
  }

  /** Everything that is somewhere in the pipeline, in the order it moves through. */
  function Pipeline(s: State): seq<nat> {
    s.sent + s.inFlight + s.buffer
  }

  /** Order and conservation. */
  ghost predicate EntriesInv(s: State) {
    && s.capacity > 0 && s.window > 0 && |s.buffer| <= s.capacity
    && Increasing(Pipeline(s))
    && (forall x: nat :: x < s.next <==> x in Pipeline(s) || x in s.evicted)
    && (forall x :: x in s.evicted ==> x !in Pipeline(s))
  }

  lemma IncreasingWithout(a: seq<nat>, x: nat, b: seq<nat>)
    requires Increasing(a + [x] + b)
    ensures Increasing(a + b) && x !in a + b
    ensures forall y :: y in a + [x] + b <==> y == x || y in a + b
  {
    var s, t := a + [x] + b, a + b;
    assert s[|a|] == x;
    assert forall i :: 0 <= i < |a| ==> s[i] == a[i] == t[i];
    assert forall i :: |a| <= i < |t| ==> s[i + 1] == b[i - |a|] == t[i];
    forall i, j | 0 <= i < j < |t|
      ensures t[i] < t[j]
    {
      assert s[if i < |a| then i else i + 1] < s[if j < |a| then j else j + 1];
    }
    forall i | 0 <= i < |t|
      ensures t[i] != x
    {
      assert s[if i < |a| then i else i + 1] == t[i];
    }
  }

  lemma AddEntries(s: State)
    requires EntriesInv(s)
    ensures EntriesInv(Step(s, Add))
  {
    var n := Step(s, Add);
    var head := s.sent + s.inFlight;
    if |s.buffer| == s.capacity {
      var x, rest := s.buffer[0], s.buffer[1..];
      assert Pipeline(s) == head + [x] + rest;
      IncreasingWithout(head, x, rest);
      assert Pipeline(n) == (head + rest) + [s.next];
      AppendNext(head + rest, s.next);
    } else {
      assert Pipeline(n) == Pipeline(s) + [s.next];
      AppendNext(Pipeline(s), s.next);
    }
  }

  lemma AppendNext(t: seq<nat>, next: nat)
    requires Increasing(t) && forall x :: x in t ==> x < next
    ensures Increasing(t + [next]) && forall y :: y in t + [next] <==> y == next || y in t
  {
    assert forall i :: 0 <= i < |t| ==> t[i] in t;
  }

  lemma MoveEntries(s: State, e: Event)
    requires EntriesInv(s) && !e.Add?
    ensures EntriesInv(Step(s, e)) && Pipeline(Step(s, e)) == Pipeline(s) && Step(s, e).evicted == s.evicted
  {
    var n := Step(s, e);
    if e.SendOne? && s.inFlight != [] {
      assert s.inFlight == [s.inFlight[0]] + s.inFlight[1..];
      assert n.sent + n.inFlight == s.sent + s.inFlight;
    } else if e.Drain? && s.inFlight == [] {
      assert s.sent + [] + s.buffer == s.sent + s.buffer + [];
    }
    assert Pipeline(n) == Pipeline(s);
  }

  lemma StepEntries(s: State, e: Event)
    requires EntriesInv(s)
    ensures EntriesInv(Step(s, e))
  {
    if e.Add? {
      AddEntries(s);
    } else {
      MoveEntries(s, e);
    }
  }

  // ---- The clients ----

  ghost predicate ClientInv(s: State, c: Client) {
    && c.subscribedAt <= c.pos <= |s.sent|
    && |c.live| + c.missed == c.pos - c.subscribedAt
    && Increasing(c.live)
    && (forall x :: x in c.live ==> x in s.sent[c.subscribedAt..c.pos])
    && (c.missed == 0 ==> c.live == s.sent[c.subscribedAt..c.pos])
    && (c.snapshot.None? ==> c.replayed == 0)
    && (c.snapshot.Some? ==>
          && c.replayed <= |c.snapshot.value| && Increasing(c.snapshot.value)
          && forall x :: x in c.snapshot.value ==> x < s.next && x !in s.sent[..c.subscribedAt])
  }

  ghost predicate Inv(s: State) {
    EntriesInv(s) && forall id :: id in s.clients ==> ClientInv(s, s.clients[id])
  }

  /** What a client knows stays true while the rest of the system moves. */
  lemma ClientKept(s: State, n: State, c: Client)
    requires ClientInv(s, c) && s.next <= n.next && s.sent <= n.sent
    ensures ClientInv(n, c)
  {
    assert n.sent[c.subscribedAt..c.pos] == s.sent[c.subscribedAt..c.pos];
    assert n.sent[..c.subscribedAt] == s.sent[..c.subscribedAt];
  }

  lemma SentIncreasing(s: State)
    requires EntriesInv(s)
    ensures Increasing(s.sent) && Increasing(s.buffer)
    ensures forall x :: x in s.buffer ==> x !in s.sent && x < s.next
  {
    var p := Pipeline(s);
    var k := |s.sent| + |s.inFlight|;
    assert forall i :: 0 <= i < |s.sent| ==> p[i] == s.sent[i];
    assert forall i :: k <= i < |p| ==> p[i] == s.buffer[i - k];
    forall i, j | 0 <= i < j < |s.buffer|
      ensures s.buffer[i] < s.buffer[j]
    {
      assert p[k + i] < p[k + j];
    }
    forall x | x in s.buffer
      ensures x !in s.sent && x < s.next
    {
      var i :| 0 <= i < |s.buffer| && s.buffer[i] == x;
      assert p[k + i] == x && p[k + i] in p;
      assert forall j :: 0 <= j < |s.sent| ==> p[j] < p[k + i];
    }
  }

  lemma SubscribeClient(s: State)
    ensures ClientInv(s, Client(|s.sent|, None, 0, |s.sent|, [], 0))
  {
    assert s.sent[|s.sent|..|s.sent|] == [];
  }

  lemma SnapshotClient(s: State, c: Client)
    requires EntriesInv(s) && ClientInv(s, c) && c.snapshot.None?
    ensures ClientInv(s, c.(snapshot := Some(s.buffer)))
  {
    SentIncreasing(s);
    assert forall x :: x in s.sent[..c.subscribedAt] ==> x in s.sent;
  }

  lemma ReceiveClient(s: State, c: Client)
    requires EntriesInv(s) && ClientInv(s, c)
    ensures ClientInv(s, ReceiveStep(s, c))
  {
    var d := ReceiveStep(s, c);
    SentIncreasing(s);
    var before, after := s.sent[c.subscribedAt..c.pos], s.sent[c.subscribedAt..d.pos];
    assert forall i :: 0 <= i < |before| ==> after[i] == before[i];
    if d.pos == c.pos + 1 && d.missed == c.missed {
      assert after == before + [s.sent[c.pos]];
      forall x | x in c.live
        ensures x < s.sent[c.pos]
      {
        var i :| 0 <= i < |before| && before[i] == x;
        assert s.sent[c.subscribedAt + i] == x;
      }
      assert forall i :: 0 <= i < |c.live| ==> c.live[i] in c.live;
    }
  }

  lemma StepClients(s: State, e: Event)
    requires Inv(s)
    ensures Inv(Step(s, e))
  {
    StepEntries(s, e);
    var n := Step(s, e);
    hide EntriesInv;
    forall id | id in n.clients
      ensures ClientInv(n, n.clients[id])
    {
      hide ClientInv;
      if id in s.clients {
        ClientKept(s, n, s.clients[id]);
        match e {
          case TakeSnapshot(i) => if i == id && s.clients[id].snapshot.None? { SnapshotClient(s, s.clients[id]); }
          case Receive(i) => if i == id { ReceiveIfAllowed(s, s.clients[id]); }
          case Replay(i) => if i == id { ReplayClient(s, s.clients[id]); }
          case _ =>
        }
      } else {
        SubscribeClient(s);
      }
    }
  }

  lemma ReceiveIfAllowed(s: State, c: Client)
    requires EntriesInv(s) && ClientInv(s, c)
    ensures c.pos <= |s.sent| && ClientInv(s, ReceiveStep(s, c))
  {
    ReceiveClient(s, c);
  }

  lemma ReplayClient(s: State, c: Client)
    requires ClientInv(s, c)
    ensures c.snapshot.Some? && c.replayed < |c.snapshot.value| ==> ClientInv(s, c.(replayed := c.replayed + 1))
  {
    hide Increasing;
  }

  lemma {:induction false} RunInv(s: State, events: seq<Event>)
    requires Inv(s)
    ensures Inv(Run(s, events))
    decreases |events|
  {
    hide Inv, Step;
    if events == [] {
    } else {
      StepClients(s, events[0]);
      RunInv(Step(s, events[0]), events[1..]);
    }
  }

  // ---- What holds in every run ----

  /** In every interleaving: sent, in-flight and buffered entries joined together are strictly increasing in
      order of addition, and what is missing from them is exactly what was evicted. */
  lemma LogsAreOrderedAndConserved(capacity: nat, window: nat, events: seq<Event>)
    requires capacity > 0 && window > 0
    ensures var s := Run(Init(capacity, window), events);
            && Increasing(Pipeline(s))
            && (forall x: nat :: x < s.next ==> (x !in Pipeline(s) <==> x in s.evicted))
            && (forall x :: x in Pipeline(s) ==> x < s.next)
            && |s.buffer| <= capacity
  {
    RunInv(Init(capacity, window), events);
    CapacityKept(Init(capacity, window), events);
    hide Run, Increasing;
  }

  lemma {:induction false} CapacityKept(s: State, events: seq<Event>)
    ensures Run(s, events).capacity == s.capacity && Run(s, events).window == s.window
    decreases |events|
  {
    hide Pushed, ReceiveStep;
    if events == [] {
    } else {
      CapacityKept(Step(s, events[0]), events[1..]);
    }
  }

  /** An entry is evicted in one way only: it is the oldest one buffered, the buffer is full, and another
      entry arrives. */
  lemma EvictedOnlyAtCapacity(s: State, e: Event, x: nat)
    requires EntriesInv(s) && x in Step(s, e).evicted && x !in s.evicted
    ensures e == Add && |s.buffer| == s.capacity && x == s.buffer[0]
    ensures forall y :: y in s.buffer ==> x <= y
    ensures forall y :: y in s.sent + s.inFlight ==> y < x
  {
    var p, k := Pipeline(s), |s.sent| + |s.inFlight|;
    assert forall i :: 0 <= i < |s.buffer| ==> p[k + i] == s.buffer[i];
    assert forall i :: 0 <= i < k ==> p[i] == (s.sent + s.inFlight)[i];
  }

  /** The part of the snapshot a client has been given. */
  function History(c: Client): seq<nat> {
    match c.snapshot
    case Some(snap) => if c.replayed <= |snap| then snap[..c.replayed] else []
    case None => []
  }

  /** Everything a client has been given, in order: the replayed history, then the live entries. */
  function Stream(c: Client): seq<nat> {
    History(c) + c.live
  }

  /** For a client that never lagged: its live entries are, without gap or duplicate, the entries sent since
      it subscribed up to its place; and every entry not yet sent when it subscribed and not evicted has
      been delivered live or is still on its way. */
  lemma NoGapForNonLaggingClient(capacity: nat, window: nat, events: seq<Event>, id: nat)
    requires capacity > 0 && window > 0
    requires var s := Run(Init(capacity, window), events); id in s.clients && s.clients[id].missed == 0
    ensures var s := Run(Init(capacity, window), events); var c := s.clients[id];
            && c.subscribedAt <= c.pos <= |s.sent|
            && c.live == s.sent[c.subscribedAt..c.pos]
            && forall x: nat :: x < s.next && x !in s.sent[..c.subscribedAt] && x !in s.evicted ==>
                 x in c.live || x in s.sent[c.pos..] || x in s.inFlight || x in s.buffer
  {
    RunInv(Init(capacity, window), events);
    hide Run, Increasing;
    var s := Run(Init(capacity, window), events);
    var c := s.clients[id];
    assert s.sent == s.sent[..c.subscribedAt] + s.sent[c.subscribedAt..c.pos] + s.sent[c.pos..];
  }

  function Once(x: nat, t: seq<nat>): nat {
    if x in t then 1 else 0
  }

  /** For any client, lagging or not: nothing sent before it subscribed ever reaches it, every entry reaches
      it once for being in the replayed history and once for being among the live ones, so never more than
      twice, and the live entries are in order. */
  lemma StreamHasAtMostTwo(capacity: nat, window: nat, events: seq<Event>, id: nat)
    requires capacity > 0 && window > 0
    requires id in Run(Init(capacity, window), events).clients
    ensures var s := Run(Init(capacity, window), events); var c := s.clients[id];
            && c.subscribedAt <= |s.sent|
            && (forall x :: x in Stream(c) ==> x !in s.sent[..c.subscribedAt] && x < s.next)
            && (forall x :: multiset(Stream(c))[x] == Once(x, History(c)) + Once(x, c.live) <= 2)
            && Increasing(c.live)
            && |c.live| + c.missed == c.pos - c.subscribedAt
  {
    RunInv(Init(capacity, window), events);
    hide Run;
    var s := Run(Init(capacity, window), events);
    StreamCounts(s, s.clients[id]);
  }

  lemma {:induction false} IncreasingCount(t: seq<nat>, x: nat)
    requires Increasing(t)
    ensures multiset(t)[x] == if x in t then 1 else 0
  {
    if t == [] {
    } else {
      var front, last := t[..|t| - 1], t[|t| - 1];
      assert t == front + [last];
      IncreasingCount(front, x);
      assert last !in front;
    }
  }

  lemma StreamCounts(s: State, c: Client)
    requires EntriesInv(s) && ClientInv(s, c)
    ensures forall x :: x in Stream(c) ==> x !in s.sent[..c.subscribedAt] && x < s.next
    ensures forall x :: multiset(Stream(c))[x] == Once(x, History(c)) + Once(x, c.live)
  {
    forall x | x in c.live
      ensures x !in s.sent[..c.subscribedAt] && x < s.next
    {
      LiveIsNew(s, c, x);
    }
    hide EntriesInv;
    assert Increasing(History(c));
    hide Increasing, History;
    forall x: nat
      ensures multiset(Stream(c))[x] == Once(x, History(c)) + Once(x, c.live)
    {
      IncreasingCount(History(c), x);
      IncreasingCount(c.live, x);
      assert multiset(History(c) + c.live) == multiset(History(c)) + multiset(c.live);
    }
  }

  lemma LiveIsNew(s: State, c: Client, x: nat)
    requires EntriesInv(s) && ClientInv(s, c) && x in c.live
    ensures x !in s.sent[..c.subscribedAt] && x < s.next
  {
    var i :| 0 <= i < c.pos - c.subscribedAt && s.sent[c.subscribedAt..c.pos][i] == x;
    var k := c.subscribedAt + i;
    var p := Pipeline(s);
    assert forall j :: 0 <= j < |s.sent| ==> p[j] == s.sent[j];
    assert p[k] == x && p[k] in p;
    assert forall j :: 0 <= j < c.subscribedAt ==> p[j] < p[k];
  }

  /** History is always repeated: for a client that never lagged, every entry of its snapshot is delivered
      again live, or is still to come, or was evicted before it could be sent. */
  lemma HistoryComesAgain(capacity: nat, window: nat, events: seq<Event>, id: nat, x: nat)
    requires capacity > 0 && window > 0
    requires var s := Run(Init(capacity, window), events);
             id in s.clients && s.clients[id].missed == 0 && s.clients[id].snapshot.Some?
             && x in s.clients[id].snapshot.value
    ensures var s := Run(Init(capacity, window), events); var c := s.clients[id];
            c.pos <= |s.sent|
            && (x in c.live || x in s.sent[c.pos..] || x in s.inFlight || x in s.buffer || x in s.evicted)
  {
    RunInv(Init(capacity, window), events);
    hide Run;
    NoGapForNonLaggingClient(capacity, window, events, id);
  }

  /** The client never lagged, has replayed its whole snapshot and received all that was sent, and nothing
      is on its way to being sent. */
  predicate CaughtUp(s: State, c: Client) {
    && c.missed == 0 && c.snapshot.Some? && c.replayed == |c.snapshot.value|
    && c.pos == |s.sent| && s.inFlight == []
  }

  /** Exactly which entries a client that has caught up was given twice: those of its snapshot that were not
      evicted before they could be sent. */
  lemma GivenTwiceIff(capacity: nat, window: nat, events: seq<Event>, id: nat, x: nat)
    requires capacity > 0 && window > 0
    requires var s := Run(Init(capacity, window), events);
             id in s.clients && CaughtUp(s, s.clients[id]) && x !in s.buffer
    ensures var s := Run(Init(capacity, window), events); var c := s.clients[id];
            multiset(Stream(c))[x] == 2 <==> x in c.snapshot.value && x !in s.evicted
  {
    RunInv(Init(capacity, window), events);
    StreamHasAtMostTwo(capacity, window, events, id);
    hide Run;
    var s := Run(Init(capacity, window), events);
    var c := s.clients[id];
    hide EntriesInv;
    assert History(c) == c.snapshot.value;
    NoGapForNonLaggingClient(capacity, window, events, id);
    if x in c.snapshot.value {
      HistoryComesAgain(capacity, window, events, id, x);
    }
    if x in c.live {
      SentIsNotEvicted(s, x);
    }
  }

  lemma SentIsNotEvicted(s: State, x: nat)
    requires EntriesInv(s) && x in s.sent
    ensures x !in s.evicted
  {
    hide Increasing;
  }

  /** A client that has caught up with an empty buffer was given every entry at most once if and only if its
      whole snapshot was evicted: replaying history before live entries repeats it otherwise. */
  lemma NoRepeatIff(capacity: nat, window: nat, events: seq<Event>, id: nat)
    requires capacity > 0 && window > 0
    requires var s := Run(Init(capacity, window), events);
             id in s.clients && CaughtUp(s, s.clients[id]) && s.buffer == []
    ensures var s := Run(Init(capacity, window), events); var c := s.clients[id];
            (forall x :: multiset(Stream(c))[x] <= 1) <==> forall x :: x in c.snapshot.value ==> x in s.evicted
  {
    var s := Run(Init(capacity, window), events);
    var c := s.clients[id];
    StreamHasAtMostTwo(capacity, window, events, id);
    hide Run, Stream;
    forall x: nat
      ensures multiset(Stream(c))[x] == 2 <==> x in c.snapshot.value && x !in s.evicted
    {
      GivenTwiceIff(capacity, window, events, id, x);
    }
    if forall x :: multiset(Stream(c))[x] <= 1 {
      forall x | x in c.snapshot.value
        ensures x in s.evicted
      {
        assert multiset(Stream(c))[x] <= 1;
      }
    }
  }

  /** A concrete run: an entry is buffered when the client subscribes and reads the buffer, and sent after. */
  lemma RepeatExample()
    ensures var events := [Add, Subscribe(0), TakeSnapshot(0), Replay(0), Drain, SendOne, Receive(0)];
            var s := Run(Init(1, 1), events);
            0 in s.clients && Stream(s.clients[0]) == [0, 0]
  {
    var events := [Add, Subscribe(0), TakeSnapshot(0), Replay(0), Drain, SendOne, Receive(0)];
    var s0 := Init(1, 1);
    var s1 := Step(s0, Add);
    assert s1.buffer == [0];
    var s2 := Step(s1, Subscribe(0));
    var s3 := Step(s2, TakeSnapshot(0));
    var s4 := Step(s3, Replay(0));
    var s5 := Step(s4, Drain);
    var s6 := Step(s5, SendOne);
    assert s6.sent == [0] && s6.inFlight == [];
    var s7 := Step(s6, Receive(0));
    assert Stream(s7.clients[0]) == [0, 0];
    hide Step;
    RunFromFront(s0, events);
    RunFromFront(s1, events[1..]);
    RunFromFront(s2, events[2..]);
    RunFromFront(s3, events[3..]);
    RunFromFront(s4, events[4..]);
    RunFromFront(s5, events[5..]);
    RunFromFront(s6, events[6..]);
    assert events[7..] == [] && Run(s7, []) == s7;
  }

  lemma RunFromFront(s: State, events: seq<Event>)
    requires events != []
    ensures Run(s, events) == Run(Step(s, events[0]), events[1..])
  {
  }
}

/** Invariants of every run of the config-edit session.

    Peers are identified by ghost tags that follow them through every index shift: a peer of the stored
    configuration by its place there, a peer added in the session by a serial number together with the
    text its public key was confirmed with, if it was. */
module SessionInvariants {
  import opened Wrappers
  import opened Text
  import opened Base64Key
  import opened Config
  import opened ConfigEdit
  import opened ConfigEditLaws
  import opened ConfigDiff
  import opened Names
  import opened Session

  datatype Tag =
    | Stored(place: nat)
    | New(serial: nat, confirmedWith: Option<string>)
    | Tampered(was: Tag)  // a stored peer whose key was overwritten

  /** What is known about one session: the configuration it was opened on and who each draft peer is. */
  datatype Ledger = Ledger(stored: WgConfig, tags: seq<Tag>, next: nat)

  datatype Event = Act(a: Action) | ReloadConfig(conns: seq<ConnectionView>)

  /** The application state with the ledger of the open session and that of the stored preview. */
  datatype Traced = Traced(s: State, session: Ledger, preview: Ledger)

  function StoredTags(n: nat): (r: seq<Tag>)
    ensures |r| == n && forall i :: 0 <= i < n ==> r[i] == Stored(i)
  {
    seq(n, i requires 0 <= i < n => Stored(i))
  }

  // ---- Following the peers ----

  function Overwritten(t: Tag, value: string): Tag {
    match t
    case New(serial, _) => New(serial, Some(value))
    case _ => Tampered(t)
  }

  /** The key write in `Commit`: Enter on an accepted public key while a peer of the draft is focused. */
  predicate WritesKey(e: ConfigEditState, key: KeyCode) {
    key == Enter && Accepts(e) && FocusedField(e) == PeerPublicKey && NamesPeer(e.focusedSection, e.draft)
  }

  function LedgerAfterKey(l: Ledger, e: ConfigEditState, key: KeyCode): Ledger {
    if WritesKey(e, key) && e.focusedSection.idx < |l.tags|
    then l.(tags := l.tags[e.focusedSection.idx := Overwritten(l.tags[e.focusedSection.idx], e.editBuffer.value)])
    else l
  }

  function LedgerAfterDelete(l: Ledger, i: nat): Ledger {
    if i < |l.tags| then l.(tags := Without(l.tags, i)) else l
  }

  /** The ledger of the session after an action. */
  ghost function LedgerStep(s: State, l: Ledger, a: Action): Ledger {
    match a
    case EnterConfigEdit(_, _) =>
      (match Target(s)
       case Some(conn) => Ledger(conn.config, StoredTags(|conn.config.peers|), 0)
       case None => l)
    case ConfigEditKey(key) => (match s.configEdit case Some(e) => LedgerAfterKey(l, e, key) case None => l)
    case AddConfigPeer =>
      if s.configEdit.Some? then l.(tags := l.tags + [New(l.next, None)], next := l.next + 1) else l
    case DeleteConfigPeer(i) => if s.configEdit.Some? then LedgerAfterDelete(l, i) else l
    case ConfirmYes =>
      if s.configEdit.Some? && s.pendingConfirm.Some? && s.pendingConfirm.value.DeletePeer?
      then LedgerAfterDelete(l, s.pendingConfirm.value.idx) else l
    case _ => l
  }

  /** Whether `PreviewConfig` stores a preview. */
  predicate Previews(s: State) {
    s.configEdit.Some? && s.configEdit.value.newPeerIndices == {} && s.configEdit.value.fieldError.None?
  }

  ghost function Step(toml: Toml, t: Traced, ev: Event): Traced {
    match ev
    case ReloadConfig(conns) => t.(s := Reload(t.s, conns))
    case Act(a) =>
      Traced(Dispatch(toml, t.s, a), LedgerStep(t.s, t.session, a),
             if a.PreviewConfig? && Previews(t.s) then t.session else t.preview)
  }

  ghost function Run(toml: Toml, t: Traced, events: seq<Event>): Traced
    decreases |events|
  {
    if events == [] then t else Run(toml, Step(toml, t, events[0]), events[1..])
  }

  function Start(conns: seq<ConnectionView>): Traced {
    var none := Ledger(WgConfig(InterfaceConfig(ZeroKey(), 0, [], [], [], 0, 0, [], [], [], []), []), [], 0);
    Traced(State(conns, NamesOf(conns), Normal, Overview, None, None, None), none, none)
  }

  // ---- The invariant ----

  /** The key material of a draft peer is what its tag says. */
  predicate KeyJustified(stored: WgConfig, t: Tag, p: PeerConfig) {
    match t
    case Stored(k) => k < |stored.peers| && p.publicKey == stored.peers[k].publicKey
                      && p.presharedKey == stored.peers[k].presharedKey
    case New(_, None) => p.publicKey == ZeroKey() && p.presharedKey == None
    case New(_, Some(v)) => ValidatePublicKey(v).Ok? && FromBase64(v) == Some(p.publicKey) && p.presharedKey == None
    case Tampered(_) => false
  }

  predicate Unconfirmed(t: Tag) {
    t.New? && t.confirmedWith.None?
  }

  /** Stored peers come first, in their stored order; added ones follow in order of addition. */
  predicate Before(a: Tag, b: Tag) {
    match (a, b)
    case (Stored(i), Stored(j)) => i < j
    case (Stored(_), New(_, _)) => true
    case (New(m, _), New(n, _)) => m < n
    case _ => false
  }

  ghost predicate Ordered(tags: seq<Tag>) {
    forall i, j :: 0 <= i < j < |tags| ==> Before(tags[i], tags[j])
  }

  ghost predicate Justified(l: Ledger, draft: WgConfig) {
    && |l.tags| == |draft.peers|
    && Ordered(l.tags)
    && (forall i :: 0 <= i < |l.tags| ==> KeyJustified(l.stored, l.tags[i], draft.peers[i]))
    && (forall i :: 0 <= i < |l.tags| && l.tags[i].New? ==> l.tags[i].serial < l.next)
  }

  /** `new_peer_indices` holds exactly the indices of added, unconfirmed peers, all of them in range. */
  ghost predicate IndicesDenote(l: Ledger, e: ConfigEditState) {
    forall i: nat :: i in e.newPeerIndices <==> i < |l.tags| && Unconfirmed(l.tags[i])
  }

  ghost predicate SessionInv(l: Ledger, e: ConfigEditState) {
    Justified(l, e.draft) && IndicesDenote(l, e)
  }

  ghost predicate AllConfirmed(l: Ledger) {
    forall i :: 0 <= i < |l.tags| ==> !Unconfirmed(l.tags[i])
  }

  ghost predicate Inv(t: Traced) {
    && (t.s.configEdit.Some? ==> SessionInv(t.session, t.s.configEdit.value))
    && (t.s.diffPending.Some? ==> Justified(t.preview, t.s.diffPending.value.draft) && AllConfirmed(t.preview))
  }

  lemma OpenInv(conn: ConnectionView, section: ConfigSection, fieldIdx: nat)
    ensures SessionInv(Ledger(conn.config, StoredTags(|conn.config.peers|), 0), OpenSession(conn, section, fieldIdx))
  {
    hide FieldCurrentValue;
  }

  lemma AddInv(l: Ledger, e: ConfigEditState)
    requires SessionInv(l, e)
    ensures SessionInv(l.(tags := l.tags + [New(l.next, None)], next := l.next + 1), AddPeer(e))
  {
    hide FromBase64, ValidatePublicKey;
  }

  lemma DeleteJustified(l: Ledger, draft: WgConfig, i: nat)
    requires Justified(l, draft) && i < |draft.peers|
    ensures Justified(LedgerAfterDelete(l, i), draft.(peers := Without(draft.peers, i)))
  {
    hide KeyJustified, Before;
  }

  lemma DeleteIndices(l: Ledger, e: ConfigEditState, i: nat)
    requires IndicesDenote(l, e) && |l.tags| == |e.draft.peers| && i < |e.draft.peers|
    ensures IndicesDenote(LedgerAfterDelete(l, i), DeletePeerAt(e, i))
  {
    hide Unconfirmed, FocusedFields;
  }

  lemma DeleteInv(l: Ledger, e: ConfigEditState, i: nat)
    requires SessionInv(l, e) && i < |e.draft.peers|
    ensures SessionInv(LedgerAfterDelete(l, i), DeletePeerAt(e, i))
  {
    SameLength(l, e);
    DeleteJustified(l, e.draft, i);
    DeleteIndices(l, e, i);
    hide Justified, IndicesDenote, FocusedFields;
  }

  /** No committed field touches keys, except the public key of the focused peer. */
  lemma ApplyKeepsKeys(field: EditableField, value: string, draft: WgConfig, section: ConfigSection)
    ensures var d := ApplyField(field, value, draft, section);
            && |d.peers| == |draft.peers|
            && forall i :: 0 <= i < |draft.peers| ==>
                 d.peers[i].publicKey == draft.peers[i].publicKey && d.peers[i].presharedKey == draft.peers[i].presharedKey
  {
    hide ApplyIfaceField, ParseCommaList, ParseOrZero;
  }

  lemma ConfirmInv(l: Ledger, e: ConfigEditState)
    requires SessionInv(l, e) && Accepts(e) && FocusedField(e) == PeerPublicKey
    ensures SessionInv(LedgerAfterKey(l, e, Enter), Commit(e, PeerPublicKey, e.editBuffer.value))
  {
    assert IsNewPeer(e) && ValidatePublicKey(e.editBuffer.value).Ok?;
    AcceptedKeyDecodes(e.editBuffer.value);
    hide FromBase64, ValidatePublicKey, ValidateField, FocusedField, Decode;
    assert NamesPeer(e.focusedSection, e.draft);
  }

  lemma CommitInv(l: Ledger, e: ConfigEditState)
    requires SessionInv(l, e) && Accepts(e)
    ensures SessionInv(LedgerAfterKey(l, e, Enter), Commit(e, FocusedField(e), e.editBuffer.value))
  {
    if FocusedField(e) == PeerPublicKey {
      hide SessionInv, LedgerAfterKey, Commit, FocusedField;
      ConfirmInv(l, e);
    } else {
      hide ApplyField, FocusedField, ValidateField, FromBase64, ValidatePublicKey;
      ApplyKeepsKeys(FocusedField(e), e.editBuffer.value, e.draft, e.focusedSection);
    }
  }

  lemma KeyInv(s: State, l: Ledger, e: ConfigEditState, key: KeyCode)
    requires SessionInv(l, e)
    ensures KeyStep(s, e, key).configEdit.Some?
    ensures SessionInv(LedgerAfterKey(l, e, key), KeyStep(s, e, key).configEdit.value)
    ensures KeyStep(s, e, key).diffPending == s.diffPending
  {
    hide ValidateField, FocusedField, Commit, Justified;
    if key == Enter && Accepts(e) {
      CommitInv(l, e);
    }
  }

  /** The draft, the tracked indices and the previewed draft are as they were, or gone. */
  predicate KeepsDrafts(s: State, after: State) {
    && (after.configEdit.Some? ==>
          s.configEdit.Some? && after.configEdit.value.draft == s.configEdit.value.draft
          && after.configEdit.value.newPeerIndices == s.configEdit.value.newPeerIndices)
    && (after.diffPending.Some? ==>
          s.diffPending.Some? && after.diffPending.value.draft == s.diffPending.value.draft)
  }

  /** The actions that can change the draft, or store a new one. */
  predicate TouchesDraft(a: Action) {
    a.EnterConfigEdit? || a.ConfigEditKey? || a.AddConfigPeer? || a.DeleteConfigPeer? || a.ConfirmYes? || a.PreviewConfig?
  }

  lemma OtherActionsKeepDrafts(toml: Toml, s: State, a: Action)
    requires !TouchesDraft(a)
    ensures KeepsDrafts(s, Dispatch(toml, s, a))
  {
    hide FocusedFields, Target;
  }

  lemma ActInv(toml: Toml, t: Traced, a: Action)
    requires Inv(t)
    ensures Inv(Step(toml, t, Act(a)))
  {
    hide KeyStep, LedgerAfterKey, OpenSession, AddPeer, LedgerAfterDelete, Preview, Target, Justified, Delete, TabStep;
    if !TouchesDraft(a) {
      hide Dispatch;
      OtherActionsKeepDrafts(toml, t.s, a);
      return;
    }
    match a {
      case EnterConfigEdit(section, fieldIdx) =>
        if Target(t.s).Some? {
          OpenInv(Target(t.s).value, section, fieldIdx);
        }
      case ConfigEditKey(key) =>
        if t.s.configEdit.Some? {
          KeyInv(t.s, t.session, t.s.configEdit.value, key);
        }
      case AddConfigPeer =>
        if t.s.configEdit.Some? {
          AddInv(t.session, t.s.configEdit.value);
        }
      case DeleteConfigPeer(i) => DeleteStepInv(t, t.s, i);
      case ConfirmYes =>
        if t.s.pendingConfirm.Some? && t.s.pendingConfirm.value.DeletePeer? {
          DeleteStepInv(t, t.s.(pendingConfirm := None), t.s.pendingConfirm.value.idx);
        }
      case PreviewConfig => PreviewInv(toml, t);
    }
  }

  lemma DeleteStepInv(t: Traced, s: State, i: nat)
    requires Inv(t) && s == t.s.(pendingConfirm := s.pendingConfirm)
    ensures Delete(s, i).configEdit.Some? <==> s.configEdit.Some?
    ensures s.configEdit.Some? ==> SessionInv(LedgerAfterDelete(t.session, i), Delete(s, i).configEdit.value)
    ensures Delete(s, i).diffPending == t.s.diffPending
  {
    hide DeletePeerAt, Justified;
    if s.configEdit.Some? {
      if i < |s.configEdit.value.draft.peers| {
        DeleteInv(t.session, s.configEdit.value, i);
      } else {
        assert |t.session.tags| == |s.configEdit.value.draft.peers| by { SameLength(t.session, s.configEdit.value); }
      }
    }
  }

  lemma SameLength(l: Ledger, e: ConfigEditState)
    requires SessionInv(l, e)
    ensures |l.tags| == |e.draft.peers|
  {
  }

  lemma PreviewInv(toml: Toml, t: Traced)
    requires Inv(t)
    ensures Inv(Step(toml, t, Act(PreviewConfig)))
  {
    hide DiffOf, Lines, StoredToml, Target, KeyJustified, Ordered;
  }

  lemma StepInv(toml: Toml, t: Traced, ev: Event)
    requires Inv(t)
    ensures Inv(Step(toml, t, ev))
  {
    hide Dispatch, SessionInv, Justified, AllConfirmed;
    if ev.Act? {
      ActInv(toml, t, ev.a);
    }
  }

  lemma {:induction false} RunInv(toml: Toml, t: Traced, events: seq<Event>)
    requires Inv(t)
    ensures Inv(Run(toml, t, events))
    decreases |events|
  {
    hide Inv, Step;
    if events == [] {
    } else {
      StepInv(toml, t, events[0]);
      RunInv(toml, Step(toml, t, events[0]), events[1..]);
    }
  }

  // ---- What holds in every run ----

  /** In every run, `new_peer_indices` denotes exactly the peers added in this session whose key has not
      been confirmed, and never leaves the draft's bounds. */
  lemma NewIndicesDenoteUnconfirmedPeers(toml: Toml, conns: seq<ConnectionView>, events: seq<Event>)
    ensures var t := Run(toml, Start(conns), events);
            t.s.configEdit.Some? ==>
              var e := t.s.configEdit.value;
              && |t.session.tags| == |e.draft.peers|
              && (forall i: nat :: i in e.newPeerIndices <==> i < |e.draft.peers| && Unconfirmed(t.session.tags[i]))
              && (set i | i in e.newPeerIndices :: t.session.tags[i])
                 == (set tag | tag in t.session.tags && Unconfirmed(tag))
  {
    RunInv(toml, Start(conns), events);
    hide Run;
    var t := Run(toml, Start(conns), events);
    if t.s.configEdit.Some? {
      var e, tags := t.s.configEdit.value, t.session.tags;
      hide Unconfirmed;
      forall tag | tag in tags && Unconfirmed(tag)
        ensures tag in (set i | i in e.newPeerIndices :: tags[i])
      {
        var i :| 0 <= i < |tags| && tags[i] == tag;
        assert i in e.newPeerIndices;
      }
    }
  }

  /** The connections sessions were opened on in a run, each with the configuration stored at that moment. */
  ghost function Opened(toml: Toml, t: Traced, events: seq<Event>): set<ConnectionView>
    decreases |events|
  {
    if events == [] then {} else
    var here := if events[0].Act? && events[0].a.EnterConfigEdit? && Target(t.s).Some? then {Target(t.s).value} else {};
    here + Opened(toml, Step(toml, t, events[0]), events[1..])
  }

  ghost predicate SourcesKnown(t: Traced, known: set<ConnectionView>) {
    && (t.s.configEdit.Some? ==> ConnectionView(t.s.configEdit.value.connectionName, t.session.stored) in known)
    && (t.s.diffPending.Some? ==> ConnectionView(t.s.diffPending.value.connectionName, t.preview.stored) in known)
  }

  /** The edited and the previewed connection are the ones they were, or gone. */
  predicate KeepsNames(s: State, after: State) {
    && (after.configEdit.Some? ==>
          s.configEdit.Some? && after.configEdit.value.connectionName == s.configEdit.value.connectionName)
    && (after.diffPending.Some? ==>
          s.diffPending.Some? && after.diffPending.value.connectionName == s.diffPending.value.connectionName)
  }

  lemma KeyKeepsNames(s: State, e: ConfigEditState, key: KeyCode)
    requires s.configEdit == Some(e)
    ensures KeepsNames(s, KeyStep(s, e, key))
  {
    hide ValidateField, FocusedField, ApplyField, WithKey;
  }

  lemma DeleteKeepsNames(s: State, i: nat)
    ensures KeepsNames(s, Delete(s, i))
  {
    hide FocusedFields;
  }

  /** Only opening a session and storing a preview set a connection name. */
  lemma ActionsKeepNames(toml: Toml, s: State, a: Action)
    requires !a.EnterConfigEdit? && !a.PreviewConfig?
    ensures KeepsNames(s, Dispatch(toml, s, a))
  {
    hide KeyStep, Delete, FocusedFields, Target, Preview;
    match a {
      case ConfigEditKey(key) =>
        if s.configEdit.Some? {
          KeyKeepsNames(s, s.configEdit.value, key);
        }
      case DeleteConfigPeer(i) => DeleteKeepsNames(s, i);
      case ConfirmYes =>
        if s.pendingConfirm.Some? && s.pendingConfirm.value.DeletePeer? {
          DeleteKeepsNames(s.(pendingConfirm := None), s.pendingConfirm.value.idx);
        }
      case _ =>
    }
  }

  lemma ActKeepsSources(toml: Toml, t: Traced, a: Action, known: set<ConnectionView>)
    requires SourcesKnown(t, known)
    requires a.EnterConfigEdit? && Target(t.s).Some? ==> Target(t.s).value in known
    ensures SourcesKnown(Step(toml, t, Act(a)), known)
  {
    if a.EnterConfigEdit? || a.PreviewConfig? {
      hide FieldCurrentValue, DiffOf, Target, StoredToml;
    } else {
      ActionsKeepNames(toml, t.s, a);
      hide Dispatch, Target;
    }
  }

  lemma {:induction false} SourcesInRun(toml: Toml, t: Traced, events: seq<Event>, known: set<ConnectionView>)
    requires SourcesKnown(t, known) && Opened(toml, t, events) <= known
    ensures SourcesKnown(Run(toml, t, events), known)
    decreases |events|
  {
    hide Dispatch, LedgerStep;
    if events == [] {
    } else {
      if events[0].Act? {
        ActKeepsSources(toml, t, events[0].a, known);
      }
      SourcesInRun(toml, Step(toml, t, events[0]), events[1..], known);
    }
  }

  /** The keys of a previewed peer: a stored peer's are its own stored ones; an added peer's comes from the
      text that was accepted for that same peer, and an added peer without such a text does not occur. */
  predicate KeyConfirmed(stored: WgConfig, t: Tag, p: PeerConfig) {
    !Unconfirmed(t) && KeyJustified(stored, t, p)
  }

  /** In every run, each peer of a stored preview is either a peer of the configuration that was stored under
      the previewed connection's name when its session opened, with its stored keys and in its stored order,
      or an added peer whose key text was accepted and written to that same peer.  No unconfirmed key gets
      through. */
  lemma PreviewedKeysAreJustified(toml: Toml, conns: seq<ConnectionView>, events: seq<Event>)
    ensures var t := Run(toml, Start(conns), events);
            t.s.diffPending.Some? ==>
              var draft := t.s.diffPending.value.draft;
              && ConnectionView(t.s.diffPending.value.connectionName, t.preview.stored)
                 in Opened(toml, Start(conns), events)
              && |t.preview.tags| == |draft.peers|
              && Ordered(t.preview.tags)
              && forall i :: 0 <= i < |draft.peers| ==> KeyConfirmed(t.preview.stored, t.preview.tags[i], draft.peers[i])
  {
    RunInv(toml, Start(conns), events);
    SourcesInRun(toml, Start(conns), events, Opened(toml, Start(conns), events));
    hide Run, Opened, SessionInv, Ordered, KeyJustified, Unconfirmed;
  }

  /** In every run, a session never changes the key of a peer it did not add, and keeps those peers in
      their stored order: the tags of the stored peers are increasing places with the stored keys. */
  lemma ExistingKeysNeverChange(toml: Toml, conns: seq<ConnectionView>, events: seq<Event>, i: nat)
    requires var t := Run(toml, Start(conns), events);
             t.s.configEdit.Some? && i < |t.s.configEdit.value.draft.peers| && i !in t.s.configEdit.value.newPeerIndices
    ensures var t := Run(toml, Start(conns), events);
            var p := t.s.configEdit.value.draft.peers[i];
            i < |t.session.tags| &&
            match t.session.tags[i]
            case Stored(k) => k < |t.session.stored.peers| && p.publicKey == t.session.stored.peers[k].publicKey
                              && forall j :: i < j < |t.session.tags| && t.session.tags[j].Stored? ==>
                                   k < t.session.tags[j].place
            case New(_, confirmed) => confirmed.Some? && FromBase64(confirmed.value) == Some(p.publicKey)
            case Tampered(_) => false
  {
    RunInv(toml, Start(conns), events);
    hide Run, FromBase64, ValidatePublicKey;
    var t := Run(toml, Start(conns), events);
    assert KeyJustified(t.session.stored, t.session.tags[i], t.s.configEdit.value.draft.peers[i]);
    assert forall j :: i < j < |t.session.tags| ==> Before(t.session.tags[i], t.session.tags[j]);
  }

  // ---- Allowed IPs ----

  ghost predicate UniqueStored(conns: seq<ConnectionView>) {
    forall c :: c in conns ==> UniqueIps(c.config.peers)
  }

  ghost predicate UniqueInv(s: State) {
    && UniqueStored(s.connections)
    && (s.configEdit.Some? ==> UniqueIps(s.configEdit.value.draft.peers))
    && (s.diffPending.Some? ==> UniqueIps(s.diffPending.value.draft.peers))
  }

  ghost predicate UniqueReloads(events: seq<Event>) {
    forall ev :: ev in events && ev.ReloadConfig? ==> UniqueStored(ev.conns)
  }

  lemma KeyKeepsUnique(s: State, e: ConfigEditState, key: KeyCode)
    requires UniqueIps(e.draft.peers)
    ensures KeyStep(s, e, key).configEdit.Some? && UniqueIps(KeyStep(s, e, key).configEdit.value.draft.peers)
    ensures KeyStep(s, e, key).diffPending == s.diffPending && KeyStep(s, e, key).connections == s.connections
  {
    var typed := TypeKey(e, key);
    if key == Enter && Accepts(typed) {
      var field, value := FocusedField(typed), typed.editBuffer.value;
      if field != PeerPublicKey {
        CommitKeepsUniqueIps(field, value, typed.draft, typed.focusedSection);
      }
    }
    hide ValidateField, FocusedField, ApplyField, FromBase64, AllDistinct;
  }

  lemma DeleteKeepsUnique(s: State, i: nat)
    requires UniqueInv(s)
    ensures UniqueInv(Delete(s, i))
  {
    if s.configEdit.Some? && i < |s.configEdit.value.draft.peers| {
      RemoveKeepsUniqueIps(s.configEdit.value.draft.peers, i);
    }
    hide UniqueIps, FocusedFields;
  }

  lemma ActKeepsUnique(toml: Toml, s: State, a: Action)
    requires UniqueInv(s)
    ensures UniqueInv(Dispatch(toml, s, a))
  {
    hide KeyStep, UniqueIps, DiffOf, Delete;
    if !TouchesDraft(a) {
      OtherActionsKeepDrafts(toml, s, a);
      OtherActionsKeepConnections(toml, s, a);
      hide Dispatch;
      return;
    }
    match a {
      case ConfigEditKey(key) =>
        if s.configEdit.Some? {
          KeyKeepsUnique(s, s.configEdit.value, key);
        }
      case AddConfigPeer =>
        if s.configEdit.Some? {
          AddKeepsUniqueIps(s.configEdit.value.draft.peers, BlankPeer());
        }
      case DeleteConfigPeer(i) => DeleteKeepsUnique(s, i);
      case ConfirmYes =>
        if s.pendingConfirm.Some? && s.pendingConfirm.value.DeletePeer? {
          DeleteKeepsUnique(s.(pendingConfirm := None), s.pendingConfirm.value.idx);
        }
      case _ =>
    }
  }

  lemma OtherActionsKeepConnections(toml: Toml, s: State, a: Action)
    requires !TouchesDraft(a)
    ensures Dispatch(toml, s, a).connections == s.connections
  {
    hide FocusedFields, Target;
  }

  /** If no stored configuration repeats an allowed-IP string, no draft and no preview in any run does,
      within a peer or across peers. */
  lemma {:induction false} AllowedIpsStayUnique(toml: Toml, t: Traced, events: seq<Event>)
    requires UniqueInv(t.s) && UniqueReloads(events)
    ensures UniqueInv(Run(toml, t, events).s)
    decreases |events|
  {
    if events == [] {
    } else {
      var ev := events[0];
      assert ev in events && forall x :: x in events[1..] ==> x in events;
      hide Dispatch, UniqueIps;
      if ev.Act? {
        ActKeepsUnique(toml, t.s, ev.a);
      }
      AllowedIpsStayUnique(toml, Step(toml, t, ev), events[1..]);
    }
  }

  // ---- Focus ----

  /** The focused section and field exist. */
  predicate FocusOk(e: ConfigEditState) {
    (e.focusedSection.Peer? ==> e.focusedSection.idx < |e.draft.peers|) && e.focusedFieldIdx < |FocusedFields(e)|
  }

  ghost predicate FocusInv(s: State) {
    s.configEdit.Some? ==> FocusOk(s.configEdit.value)
  }

  /** The callers' part: a session is opened on, and focus moved to, something that exists. */
  ghost predicate NamesExisting(s: State, ev: Event) {
    match ev
    case Act(EnterConfigEdit(section, fieldIdx)) =>
      Target(s).Some? ==>
        (section.Peer? ==> section.idx < |Target(s).value.config.peers|)
        && fieldIdx < |FieldsForSection(section, false)|
    case Act(ConfigFocusPeer(i)) => s.configEdit.Some? ==> i < |s.configEdit.value.draft.peers|
    case _ => true
  }

  ghost predicate AlwaysNamesExisting(toml: Toml, t: Traced, events: seq<Event>)
    decreases |events|
  {
    events != [] ==>
      NamesExisting(t.s, events[0]) && AlwaysNamesExisting(toml, Step(toml, t, events[0]), events[1..])
  }

  lemma CommitKeepsFocus(e: ConfigEditState)
    requires FocusOk(e) && Accepts(e)
    ensures FocusOk(Commit(e, FocusedField(e), e.editBuffer.value))
  {
    var field, value := FocusedField(e), e.editBuffer.value;
    if field == PeerPublicKey {
      // the public key is the first field, so the shorter form still has the focused one
      assert e.focusedFieldIdx == 0;
      hide FromBase64, ValidateField;
    } else {
      ApplyKeepsKeys(field, value, e.draft, e.focusedSection);
      hide ApplyField, ValidateField;
    }
  }

  lemma KeyKeepsFocus(s: State, e: ConfigEditState, key: KeyCode)
    requires FocusOk(e)
    ensures KeyStep(s, e, key).configEdit.Some? && FocusOk(KeyStep(s, e, key).configEdit.value)
  {
    var typed := TypeKey(e, key);
    assert FocusOk(typed);
    if key == Enter && Accepts(typed) {
      CommitKeepsFocus(typed);
    }
    hide Commit, ValidateField;
  }

  lemma DeleteKeepsFocus(s: State, i: nat)
    requires FocusInv(s)
    ensures FocusInv(Delete(s, i))
  {
    hide FieldsForSection;
  }

  lemma ActKeepsFocus(toml: Toml, s: State, a: Action)
    requires FocusInv(s) && NamesExisting(s, Act(a))
    ensures FocusInv(Dispatch(toml, s, a))
  {
    hide KeyStep, FieldsForSection, DiffOf, Delete, Lines, FieldCurrentValue, Target;
    match a {
      case ConfigEditKey(key) =>
        if s.configEdit.Some? {
          KeyKeepsFocus(s, s.configEdit.value, key);
        }
      case DeleteConfigPeer(i) => DeleteKeepsFocus(s, i);
      case ConfirmYes =>
        if s.pendingConfirm.Some? && s.pendingConfirm.value.DeletePeer? {
          DeleteKeepsFocus(s.(pendingConfirm := None), s.pendingConfirm.value.idx);
        }
      case _ =>
    }
  }

  /** In every run whose openings and focus moves name something that exists, the focused section and
      field always exist, through deletions and key confirmations too: the fallback to `ListenPort` is
      never taken. */
  lemma {:induction false} FocusAlwaysExists(toml: Toml, t: Traced, events: seq<Event>)
    requires FocusInv(t.s) && AlwaysNamesExisting(toml, t, events)
    ensures FocusInv(Run(toml, t, events).s)
    ensures var s := Run(toml, t, events).s;
            s.configEdit.Some? ==> FocusedField(s.configEdit.value) in FocusedFields(s.configEdit.value)
    decreases |events|
  {
    hide Dispatch, NamesExisting;
    if events == [] {
    } else {
      if events[0].Act? {
        ActKeepsFocus(toml, t.s, events[0].a);
      }
      FocusAlwaysExists(toml, Step(toml, t, events[0]), events[1..]);
    }
  }

  // ---- Opening never panics ----

  ghost predicate VisibleConfigured(s: State) {
    s.visible <= NamesOf(s.connections)
  }

  predicate TogglesConfigured(s: State, ev: Event) {
    ev.Act? && ev.a.ToggleConnectionVisibility? ==> ev.a.name in NamesOf(s.connections)
  }

  ghost predicate AlwaysDispatchable(toml: Toml, t: Traced, events: seq<Event>)
    decreases |events|
  {
    events != [] ==>
      (events[0].Act? ==> CanDispatch(t.s, events[0].a)) && AlwaysDispatchable(toml, Step(toml, t, events[0]), events[1..])
  }

  ghost predicate AlwaysTogglesConfigured(toml: Toml, t: Traced, events: seq<Event>)
    decreases |events|
  {
    events != [] ==>
      TogglesConfigured(t.s, events[0]) && AlwaysTogglesConfigured(toml, Step(toml, t, events[0]), events[1..])
  }

  lemma ActKeepsVisible(toml: Toml, s: State, a: Action)
    requires VisibleConfigured(s) && TogglesConfigured(s, Act(a))
    ensures VisibleConfigured(Dispatch(toml, s, a)) && CanDispatch(s, a)
  {
    hide KeyStep, DiffOf, Lines, OpenSession, AddPeer, FocusedFields, DeletePeerAt, NamesOf, PreviewOf, LeaveField;
    LeaveFieldKeepsVisible(s);
    if s.visible != {} {
      assert Least(s.visible) in NamesOf(s.connections);
    }
    if a.ConfigEditKey? && s.configEdit.Some? {
      KeyKeepsVisible(s, s.configEdit.value, a.key);
    }
  }

  lemma LeaveFieldKeepsVisible(s: State)
    ensures LeaveField(s).visible == s.visible && LeaveField(s).connections == s.connections
  {
  }

  lemma KeyKeepsVisible(s: State, e: ConfigEditState, key: KeyCode)
    ensures KeyStep(s, e, key).visible == s.visible && KeyStep(s, e, key).connections == s.connections
  {
    hide ValidateField, Commit;
  }

  /** The `unwrap`s when a session opens never panic, in every run whose visibility toggles name
      configured connections. */
  lemma {:induction false} OpeningNeverPanics(toml: Toml, t: Traced, events: seq<Event>)
    requires VisibleConfigured(t.s) && AlwaysTogglesConfigured(toml, t, events)
    ensures AlwaysDispatchable(toml, t, events)
    decreases |events|
  {
    hide Dispatch, CanDispatch, NamesOf;
    if events == [] {
    } else {
      if events[0].Act? {
        ActKeepsVisible(toml, t.s, events[0].a);
      }
      OpeningNeverPanics(toml, Step(toml, t, events[0]), events[1..]);
    }
  }
}

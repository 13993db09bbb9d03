/** The config-edit session as a state machine: what each dispatched action does to the editing part of
    the application state (state.rs).  The methods that update the fields are in AppStateClass. */
module Session {
  import opened Wrappers
  import opened Text
  import opened Base64Key
  import opened Config
  import opened ConfigEdit
  import opened ConfigDiff
  import opened Names

  datatype InputMode = Normal | Search | Import | Export | EditField

  datatype Tab = Overview | Status | Peers | Compare | ConfigTab | Logs

  datatype KeyCode = Char(c: char) | Backspace | Enter | Esc | OtherKey

  datatype ConfirmAction = DisconnectAll | StopDaemon | DeletePeer(idx: nat)

  datatype ConnectionView = ConnectionView(name: string, config: WgConfig)

  datatype ConfigEditState = ConfigEditState(
    connectionName: string,
    draft: WgConfig,
    focusedSection: ConfigSection,
    focusedFieldIdx: nat,
    editBuffer: Option<string>,
    fieldError: Option<EditError>,
    newPeerIndices: set<nat>,
    sessionError: bool)

  datatype ConfigDiffPending = ConfigDiffPending(
    connectionName: string,
    draft: WgConfig,
    diffLines: seq<DiffLine>,
    scrollOffset: nat)

  datatype State = State(
    connections: seq<ConnectionView>,
    visible: set<string>,
    inputMode: InputMode,
    activeTab: Tab,
    pendingConfirm: Option<ConfirmAction>,
    configEdit: Option<ConfigEditState>,
    diffPending: Option<ConfigDiffPending>)

  datatype Action =
    | NextTab | PrevTab | SelectTab(tab: Tab)
    | EnterSearch | ExitSearch | ClearSearch
    | EnterImport | EnterExport | SubmitImport | ExitImport | SubmitExport | ExitExport
    | ToggleConnectionVisibility(name: string)
    | RequestConfirm(confirm: ConfirmAction) | ConfirmYes | ConfirmNo
    | EnterConfigEdit(section: ConfigSection, fieldIdx: nat)
    | ConfigEditKey(key: KeyCode)
    | ConfigFocusNext | ConfigFocusPrev | ConfigFocusInterface | ConfigFocusPeer(peer: nat)
    | AddConfigPeer | DeleteConfigPeer(peerIdx: nat)
    | PreviewConfig | ConfigDiffScrollDown | ConfigDiffScrollUp
    | SaveConfig | DiscardConfigEdits
    | OtherAction

  /** The library's TOML serialiser. */
  type Toml = WgConfig -> string

  const USIZE_MAX := 0xFFFF_FFFF_FFFF_FFFF

  // ---- Tabs ----

  const TABS: seq<Tab> := [Overview, Status, Peers, Compare, ConfigTab, Logs]

  function TabIndex(t: Tab): (i: nat)
    ensures i < |TABS| && TABS[i] == t
  {
    match t
    case Overview => 0 case Status => 1 case Peers => 2 case Compare => 3 case ConfigTab => 4 case Logs => 5
  }

  function TabStep(s: State, a: Action): State {
    var left := LeaveField(s);
    match a
    case NextTab => left.(activeTab := TABS[(TabIndex(s.activeTab) + 1) % |TABS|])
    case PrevTab => left.(activeTab := TABS[(TabIndex(s.activeTab) + |TABS| - 1) % |TABS|])
    case SelectTab(t) => left.(activeTab := t)
    case _ => left
  }

  /** Changing tab abandons the field being typed into. */
  function LeaveField(s: State): State {
    if s.inputMode != EditField then s else
    match s.configEdit
    case Some(e) => s.(inputMode := Normal, configEdit := Some(e.(editBuffer := None, fieldError := None)))
    case None => s.(inputMode := Normal)
  }

  // ---- The connection to edit ----

  function FindConn(conns: seq<ConnectionView>, name: string): (r: Option<ConnectionView>)
    ensures r.Some? ==> r.value in conns && r.value.name == name
    ensures r.None? <==> forall c :: c in conns ==> c.name != name
  {
    if conns == [] then None else if conns[0].name == name then Some(conns[0]) else FindConn(conns[1..], name)
  }

  /** The connection a new session edits: the least visible name. */
  ghost function Target(s: State): Option<ConnectionView> {
    if s.visible == {} then None else FindConn(s.connections, Least(s.visible))
  }

  /** Looking up the connection must not panic: the least visible name is a configured one. */
  ghost predicate CanDispatch(s: State, a: Action) {
    a.EnterConfigEdit? && s.visible != {} ==> Target(s).Some?
  }

  // ---- Focus ----

  predicate IsNewPeer(e: ConfigEditState) {
    e.focusedSection.Peer? && e.focusedSection.idx in e.newPeerIndices
  }

  function FocusedFields(e: ConfigEditState): (r: seq<EditableField>)
    ensures |r| > 0
  {
    FieldsForSection(e.focusedSection, IsNewPeer(e))
  }

  function FocusedField(e: ConfigEditState): EditableField {
    if e.focusedFieldIdx < |FocusedFields(e)| then FocusedFields(e)[e.focusedFieldIdx] else ListenPort
  }

  // ---- Editing ----

  function OpenSession(conn: ConnectionView, section: ConfigSection, fieldIdx: nat): ConfigEditState {
    var fields := FieldsForSection(section, false);
    var field := if fieldIdx < |fields| then fields[fieldIdx] else ListenPort;
    ConfigEditState(conn.name, conn.config, section, fieldIdx,
                    Some(FieldCurrentValue(field, section, conn.config)), None, {}, false)
  }

  function TypeKey(e: ConfigEditState, key: KeyCode): ConfigEditState {
    match (e.editBuffer, key)
    case (Some(buf), Char(c)) => e.(editBuffer := Some(buf + [c]))
    case (Some(buf), Backspace) => e.(editBuffer := Some(if buf == "" then "" else buf[..|buf| - 1]))
    case _ => e
  }

  /** The draft with the decoded key written to the peer, if there is one to write to. */
  function WithKey(draft: WgConfig, section: ConfigSection, value: string): WgConfig {
    match FromBase64(value)
    case Some(k) => if NamesPeer(section, draft)
                    then WithPeer(draft, section, draft.peers[section.idx].(publicKey := k)) else draft
    case None => draft
  }

  /** Confirming the focused peer's public key: it is no longer a new peer. */
  function ConfirmKey(e: ConfigEditState, value: string): ConfigEditState {
    match e.focusedSection
    case Interface => e
    case Peer(idx) =>
      var left := e.newPeerIndices - {idx};
      var error := if left == {} then false else e.sessionError;
      e.(draft := WithKey(e.draft, e.focusedSection, value), newPeerIndices := left, sessionError := error)
  }

  /** Committing an accepted value. */
  function Commit(e: ConfigEditState, field: EditableField, value: string): ConfigEditState {
    var written := if field == PeerPublicKey then ConfirmKey(e, value)
                   else e.(draft := ApplyField(field, value, e.draft, e.focusedSection));
    written.(editBuffer := None, fieldError := None)
  }

  predicate Accepts(e: ConfigEditState) {
    e.editBuffer.Some? && ValidateField(FocusedField(e), e.editBuffer.value, e.draft, e.focusedSection).Ok?
  }

  /** What Enter and Esc do once the key has been typed into the buffer. */
  function EndKey(s: State, e: ConfigEditState, key: KeyCode): State {
    match (key, e.editBuffer)
    case (Enter, Some(value)) =>
      (match ValidateField(FocusedField(e), value, e.draft, e.focusedSection)
       case Ok(_) => s.(configEdit := Some(Commit(e, FocusedField(e), value)), inputMode := Normal)
       case Err(err) => s.(configEdit := Some(e.(fieldError := Some(err)))))
    case (Esc, Some(_)) => s.(configEdit := Some(e.(editBuffer := None, fieldError := None)), inputMode := Normal)
    case _ => s.(configEdit := Some(e))
  }

  function KeyStep(s: State, e: ConfigEditState, key: KeyCode): State {
    EndKey(s, TypeKey(e, key), key)
  }

  function BlankPeer(): PeerConfig {
    PeerConfig("", ZeroKey(), None, None, [], 0)
  }

  function AddPeer(e: ConfigEditState): ConfigEditState {
    var idx := |e.draft.peers|;
    e.(draft := e.draft.(peers := e.draft.peers + [BlankPeer()]),
       newPeerIndices := e.newPeerIndices + {idx},
       focusedSection := Peer(idx), focusedFieldIdx := 0, editBuffer := Some(""), fieldError := None)
  }

  /** Indices after position `i` move down by one; `i` itself goes. */
  function Shifted(s: set<nat>, i: nat): (r: set<nat>)
    ensures forall x :: x in r <==> if x < i then x in s else x + 1 in s
  {
    set x | x in s && x != i :: if x > i then x - 1 else x
  }

  function Min(a: nat, b: nat): nat {
    if a < b then a else b
  }

  function Without<T>(items: seq<T>, i: nat): (r: seq<T>)
    requires i < |items|
    ensures |r| == |items| - 1
    ensures forall k :: 0 <= k < |r| ==> r[k] == if k < i then items[k] else items[k + 1]
  {
    items[..i] + items[i + 1..]
  }

  /** Focus after a deletion: the interface when no peer is left, otherwise clamped into range. */
  function Refocus(e: ConfigEditState): ConfigEditState {
    if e.draft.peers == [] then e.(focusedSection := Interface, focusedFieldIdx := 0)
    else if e.focusedSection.Peer? then
      ClampField(e.(focusedSection := Peer(Min(e.focusedSection.idx, |e.draft.peers| - 1))))
    else ClampField(e)
  }

  function ClampField(e: ConfigEditState): ConfigEditState {
    e.(focusedFieldIdx := Min(e.focusedFieldIdx, |FocusedFields(e)| - 1))
  }

  function DeletePeerAt(e: ConfigEditState, i: nat): ConfigEditState
    requires i < |e.draft.peers|
  {
    Refocus(e.(draft := e.draft.(peers := Without(e.draft.peers, i)), newPeerIndices := Shifted(e.newPeerIndices, i)))
  }

  function Delete(s: State, i: nat): State {
    match s.configEdit
    case Some(e) => if i < |e.draft.peers| then s.(configEdit := Some(DeletePeerAt(e, i))) else s
    case None => s
  }

  function StoredToml(toml: Toml, s: State, name: string): string {
    match FindConn(s.connections, name) case Some(c) => toml(c.config) case None => ""
  }

  function PreviewOf(toml: Toml, s: State, e: ConfigEditState): ConfigDiffPending {
    ConfigDiffPending(e.connectionName, e.draft,
                      DiffOf(Lines(StoredToml(toml, s, e.connectionName)), Lines(toml(e.draft))), 0)
  }

  function Preview(toml: Toml, s: State): State {
    match s.configEdit
    case None => s
    case Some(e) =>
      if e.newPeerIndices != {} then s.(configEdit := Some(e.(sessionError := true)))
      else if e.fieldError.None? then s.(diffPending := Some(PreviewOf(toml, s, e)))
      else s
  }

  /** `handle_config_actions`. */
  ghost function ConfigStep(toml: Toml, s: State, a: Action): State {
    match a
    case EnterConfigEdit(section, fieldIdx) =>
      (match Target(s)
       case Some(conn) => s.(configEdit := Some(OpenSession(conn, section, fieldIdx)), inputMode := EditField)
       case None => s)
    case ConfigEditKey(key) => (match s.configEdit case Some(e) => KeyStep(s, e, key) case None => s)
    case ConfigFocusNext =>
      (match s.configEdit
       case Some(e) => s.(configEdit := Some(e.(focusedFieldIdx := (e.focusedFieldIdx + 1) % |FocusedFields(e)|)))
       case None => s)
    case ConfigFocusPrev =>
      (match s.configEdit
       case Some(e) => s.(configEdit := Some(e.(focusedFieldIdx :=
           if e.focusedFieldIdx == 0 then |FocusedFields(e)| - 1 else e.focusedFieldIdx - 1)))
       case None => s)
    case ConfigFocusInterface =>
      (match s.configEdit
       case Some(e) => s.(configEdit := Some(e.(focusedSection := Interface, focusedFieldIdx := 0)))
       case None => s)
    case ConfigFocusPeer(i) =>
      (match s.configEdit
       case Some(e) => s.(configEdit := Some(e.(focusedSection := Peer(i), focusedFieldIdx := 0)))
       case None => s)
    case AddConfigPeer =>
      (match s.configEdit
       case Some(e) => s.(configEdit := Some(AddPeer(e)), inputMode := EditField)
       case None => s)
    case DeleteConfigPeer(i) => Delete(s, i)
    case PreviewConfig => Preview(toml, s)
    case ConfigDiffScrollDown =>
      (match s.diffPending
       case Some(p) => s.(diffPending := Some(p.(scrollOffset := Min(p.scrollOffset + 1, USIZE_MAX))))
       case None => s)
    case ConfigDiffScrollUp =>
      (match s.diffPending
       case Some(p) => s.(diffPending := Some(p.(scrollOffset := if p.scrollOffset == 0 then 0 else p.scrollOffset - 1)))
       case None => s)
    case SaveConfig => s.(configEdit := None, diffPending := None)
    case DiscardConfigEdits => s.(configEdit := None, diffPending := None, inputMode := Normal)
    case _ => s
  }

  /** `handle_confirm_actions`; a confirmed peer deletion is dispatched at once. */
  function ConfirmStep(s: State, a: Action): State {
    match a
    case RequestConfirm(c) => s.(pendingConfirm := Some(c))
    case ConfirmYes =>
      (match s.pendingConfirm
       case Some(DeletePeer(i)) => Delete(s.(pendingConfirm := None), i)
       case _ => s.(pendingConfirm := None))
    case ConfirmNo => s.(pendingConfirm := None)
    case _ => s
  }

  /** `AppState::dispatch`, restricted to the fields above. */
  ghost function Dispatch(toml: Toml, s: State, a: Action): State {
    match a
    case NextTab => TabStep(s, a)
    case PrevTab => TabStep(s, a)
    case SelectTab(_) => TabStep(s, a)
    case EnterSearch => s.(inputMode := Search)
    case ExitSearch => s.(inputMode := Normal)
    case ClearSearch => s.(inputMode := Normal)
    case EnterImport => s.(inputMode := Import)
    case EnterExport => s.(inputMode := Export)
    case SubmitImport => s.(inputMode := Normal)
    case ExitImport => s.(inputMode := Normal)
    case SubmitExport => s.(inputMode := Normal)
    case ExitExport => s.(inputMode := Normal)
    case ToggleConnectionVisibility(name) =>
      s.(visible := if name in s.visible then s.visible - {name} else s.visible + {name})
    case RequestConfirm(_) => ConfirmStep(s, a)
    case ConfirmYes => ConfirmStep(s, a)
    case ConfirmNo => ConfirmStep(s, a)
    case _ => ConfigStep(toml, s, a)
  }

  function NamesOf(conns: seq<ConnectionView>): (r: set<string>)
    ensures forall n :: n in r <==> exists i :: 0 <= i < |conns| && conns[i].name == n
  {
    set c | c in conns :: c.name
  }

  /** `reload_from_config`: new connections, all visible; the session is left alone. */
  function Reload(s: State, conns: seq<ConnectionView>): State {
    s.(connections := conns, visible := NamesOf(conns))
  }
}

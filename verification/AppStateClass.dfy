/** The application state as an object whose handlers update its fields, proved against Session. */
module AppStateClass {
  import opened Wrappers
  import opened Text
  import opened Base64Key
  import opened Config
  import opened ConfigEdit
  import opened ConfigDiff
  import opened Names
  import opened Session

  class AppState {
    const toml: Toml
    var connections: seq<ConnectionView>
    var visible: set<string>
    var inputMode: InputMode
    var activeTab: Tab
    var pendingConfirm: Option<ConfirmAction>
    var configEdit: Option<ConfigEditState>
    var diffPending: Option<ConfigDiffPending>

    function View(): State
      reads this
    {
      State(connections, visible, inputMode, activeTab, pendingConfirm, configEdit, diffPending)
    }

    /** `AppState::new`: all connections visible, no session. */
    constructor (toml: Toml, conns: seq<ConnectionView>)
      ensures this.toml == toml
      ensures View() == State(conns, NamesOf(conns), Normal, Overview, None, None, None)
    {
      this.toml := toml;
      connections, visible := conns, NamesOf(conns);
      inputMode, activeTab, pendingConfirm, configEdit, diffPending := Normal, Overview, None, None, None;
    }

    method ReloadFromConfig(conns: seq<ConnectionView>)
      modifies this
      ensures View() == Reload(old(View()), conns)
    {
      connections := conns;
      visible := NamesOf(conns);
    }

    method HandleTabActions(a: Action)
      modifies this
      ensures View() == TabStep(old(View()), a)
    {
      if inputMode == EditField {
        if configEdit.Some? {
          configEdit := Some(configEdit.value.(editBuffer := None, fieldError := None));
        }
        inputMode := Normal;
      }
      match a {
        case NextTab => activeTab := TABS[(TabIndex(activeTab) + 1) % |TABS|];
        case PrevTab => activeTab := TABS[(TabIndex(activeTab) + |TABS| - 1) % |TABS|];
        case SelectTab(t) => activeTab := t;
        case _ =>
      }
    }

    method DeletePeerFromDraft(i: nat)
      modifies this
      ensures View() == Delete(old(View()), i)
    {
      if configEdit.None? || i >= |configEdit.value.draft.peers| {
        return;
      }
      var e := configEdit.value;
      var peers := Without(e.draft.peers, i);
      e := e.(draft := e.draft.(peers := peers), newPeerIndices := Shifted(e.newPeerIndices, i));
      if peers == [] {
        e := e.(focusedSection := Interface, focusedFieldIdx := 0);
      } else {
        if e.focusedSection.Peer? {
          e := e.(focusedSection := Peer(Min(e.focusedSection.idx, |peers| - 1)));
        }
        var maxField := |FocusedFields(e)| - 1;
        e := e.(focusedFieldIdx := Min(e.focusedFieldIdx, maxField));
      }
      configEdit := Some(e);
    }

    method HandleConfirmActions(a: Action)
      modifies this
      ensures View() == ConfirmStep(old(View()), a)
    {
      match a {
        case RequestConfirm(c) => pendingConfirm := Some(c);
        case ConfirmYes =>
          var pending := pendingConfirm;
          pendingConfirm := None;
          if pending.Some? && pending.value.DeletePeer? {
            DeletePeerFromDraft(pending.value.idx);
          }
        case ConfirmNo => pendingConfirm := None;
        case _ =>
      }
    }

    /** A key while a session is open: edit the buffer, then commit or cancel. */
    method HandleEditKey(key: KeyCode)
      requires configEdit.Some?
      modifies this
      ensures View() == KeyStep(old(View()), old(configEdit.value), key)
    {
      hide ValidateField, ApplyField, FocusedField, FromBase64;
      var e := configEdit.value;
      if e.editBuffer.Some? {
        var buf := e.editBuffer.value;
        match key {
          case Char(c) => e := e.(editBuffer := Some(buf + [c]));
          case Backspace => e := e.(editBuffer := Some(if buf == "" then "" else buf[..|buf| - 1]));
          case _ =>
        }
      }
      match key {
        case Enter =>
          if e.editBuffer.Some? {
            var value := e.editBuffer.value;
            var field := FocusedField(e);
            var section := e.focusedSection;
            match ValidateField(field, value, e.draft, section) {
              case Ok(_) =>
                if field == PeerPublicKey {
                  if section.Peer? {
                    var decoded := FromBase64(value);
                    if decoded.Some? && section.idx < |e.draft.peers| {
                      var peer := e.draft.peers[section.idx].(publicKey := decoded.value);
                      e := e.(draft := e.draft.(peers := e.draft.peers[section.idx := peer]));
                    }
                    e := e.(newPeerIndices := e.newPeerIndices - {section.idx});
                    if e.newPeerIndices == {} {
                      e := e.(sessionError := false);
                    }
                  }
                } else {
                  e := e.(draft := ApplyField(field, value, e.draft, section));
                }
                e := e.(editBuffer := None, fieldError := None);
                inputMode := Normal;
              case Err(err) => e := e.(fieldError := Some(err));
            }
          }
        case Esc =>
          if e.editBuffer.Some? {
            e := e.(editBuffer := None, fieldError := None);
            inputMode := Normal;
          }
        case _ =>
      }
      configEdit := Some(e);
    }

    /** `PreviewConfig`: blocked while a new peer lacks a confirmed key. */
    method PreviewDraft()
      modifies this
      ensures View() == Preview(toml, old(View()))
    {
      if configEdit.None? {
        return;
      }
      var e := configEdit.value;
      if e.newPeerIndices != {} {
        configEdit := Some(e.(sessionError := true));
        return;
      }
      if e.fieldError.None? {
        var stored := FindConn(connections, e.connectionName);
        var originalToml := if stored.Some? then toml(stored.value.config) else "";
        var diffLines := ComputeDiff(originalToml, toml(e.draft));
        diffPending := Some(ConfigDiffPending(e.connectionName, e.draft, diffLines, 0));
      }
    }

    /** Focus moves within and between the sections of the form. */
    method MoveFocus(a: Action)
      requires a.ConfigFocusNext? || a.ConfigFocusPrev? || a.ConfigFocusInterface? || a.ConfigFocusPeer?
      modifies this`configEdit
      ensures View() == ConfigStep(toml, old(View()), a)
    {
      hide KeyStep, Delete, Preview, OpenSession, FocusedFields, AddPeer, Target;
      if configEdit.None? {
        return;
      }
      var e := configEdit.value;
      match a {
        case ConfigFocusNext =>
          e := e.(focusedFieldIdx := (e.focusedFieldIdx + 1) % |FocusedFields(e)|);
        case ConfigFocusPrev =>
          e := e.(focusedFieldIdx := if e.focusedFieldIdx == 0 then |FocusedFields(e)| - 1 else e.focusedFieldIdx - 1);
        case ConfigFocusInterface => e := e.(focusedSection := Interface, focusedFieldIdx := 0);
        case ConfigFocusPeer(i) => e := e.(focusedSection := Peer(i), focusedFieldIdx := 0);
      }
      configEdit := Some(e);
    }

    /** `AddConfigPeer`: append a blank peer, track it, and open its first field. */
    method AddPeerToDraft()
      modifies this
      ensures View() == ConfigStep(toml, old(View()), AddConfigPeer)
    {
      hide KeyStep, Delete, Preview, OpenSession, FocusedFields, BlankPeer, Target;
      if configEdit.None? {
        return;
      }
      var e := configEdit.value;
      e := e.(draft := e.draft.(peers := e.draft.peers + [BlankPeer()]));
      var idx := |e.draft.peers| - 1;
      e := e.(newPeerIndices := e.newPeerIndices + {idx}, focusedSection := Peer(idx), focusedFieldIdx := 0);
      configEdit := Some(e.(editBuffer := Some(""), fieldError := None));
      inputMode := EditField;
    }

    /** `EnterConfigEdit`: edit the connection with the least visible name. */
    method StartSession(section: ConfigSection, fieldIdx: nat)
      requires CanDispatch(View(), EnterConfigEdit(section, fieldIdx))
      modifies this
      ensures View() == ConfigStep(toml, old(View()), EnterConfigEdit(section, fieldIdx))
    {
      hide OpenSession, LexLe, IsLeast;
      if visible != {} {
        var name := FindLeast(visible);
        var conn := FindConn(connections, name).value;
        configEdit := Some(OpenSession(conn, section, fieldIdx));
        inputMode := EditField;
      }
    }

    method ScrollDiff(a: Action)
      requires a.ConfigDiffScrollDown? || a.ConfigDiffScrollUp?
      modifies this`diffPending
      ensures View() == ConfigStep(toml, old(View()), a)
    {
      hide Target;
      if diffPending.Some? {
        var p := diffPending.value;
        diffPending := Some(p.(scrollOffset :=
          if a.ConfigDiffScrollDown? then Min(p.scrollOffset + 1, USIZE_MAX)
          else if p.scrollOffset == 0 then 0 else p.scrollOffset - 1));
      }
    }

    method HandleConfigActions(a: Action)
      requires CanDispatch(View(), a)
      modifies this
      ensures View() == ConfigStep(toml, old(View()), a)
    {
      hide KeyStep, AddPeer, Delete, Preview, OpenSession, FocusedFields, Target, CanDispatch;
      match a {
        case EnterConfigEdit(section, fieldIdx) => StartSession(section, fieldIdx);
        case DeleteConfigPeer(i) => DeletePeerFromDraft(i);
        case PreviewConfig => PreviewDraft();
        case ConfigDiffScrollDown => ScrollDiff(a);
        case ConfigDiffScrollUp => ScrollDiff(a);
        case SaveConfig => configEdit, diffPending := None, None;
        case DiscardConfigEdits => configEdit, diffPending, inputMode := None, None, Normal;
        case ConfigEditKey(key) => if configEdit.Some? { HandleEditKey(key); }
        case ConfigFocusNext => MoveFocus(a);
        case ConfigFocusPrev => MoveFocus(a);
        case ConfigFocusInterface => MoveFocus(a);
        case ConfigFocusPeer(_) => MoveFocus(a);
        case AddConfigPeer => AddPeerToDraft();
        case _ =>
      }
    }

    /** The central hub: route an action to its handler. */
    method HandleAction(a: Action)
      requires CanDispatch(View(), a)
      modifies this
      ensures View() == Dispatch(toml, old(View()), a)
    {
      hide ConfigStep, ConfirmStep, TabStep;
      match a {
        case NextTab => HandleTabActions(a);
        case PrevTab => HandleTabActions(a);
        case SelectTab(_) => HandleTabActions(a);
        case EnterSearch => inputMode := Search;
        case ExitSearch => inputMode := Normal;
        case ClearSearch => inputMode := Normal;
        case EnterImport => inputMode := Import;
        case EnterExport => inputMode := Export;
        case SubmitImport => inputMode := Normal;
        case ExitImport => inputMode := Normal;
        case SubmitExport => inputMode := Normal;
        case ExitExport => inputMode := Normal;
        case ToggleConnectionVisibility(name) =>
          if name in visible {
            visible := visible - {name};
          } else {
            visible := visible + {name};
          }
        case RequestConfirm(_) => HandleConfirmActions(a);
        case ConfirmYes => HandleConfirmActions(a);
        case ConfirmNo => HandleConfirmActions(a);
        case _ => HandleConfigActions(a);
      }
    }
  }
}

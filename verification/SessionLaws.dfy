/** What the actions of an edit session do, seen from outside: what a commit leaves in the draft, what
    typing, focusing, adding, deleting and previewing change, and what they leave alone. */
module SessionLaws {
  import opened Wrappers
  import opened Text
  import opened Decimal
  import opened IpAddress
  import opened Base64Key
  import opened Config
  import opened ConfigEdit
  import opened ConfigEditLaws
  import opened ConfigDiff
  import opened Names
  import opened Session
  import opened SessionInvariants
  import opened ValidatorLaws

  // ---- What a commit writes ----

  /** The draft holds the text in this field. */
  predicate Holds(field: EditableField, value: string, d: WgConfig, section: ConfigSection) {
    match field
    case ListenPort => NumberWritten(value, U16_MAX, d.iface.listenPort)
    case Addresses => d.iface.addresses == ParseCommaList(value)
    case Dns => AddressesWritten(ParseCommaList(value), d.iface.dns)
    case DnsSearch => d.iface.dnsSearch == ParseCommaList(value)
    case Mtu => NumberWritten(value, U16_MAX, d.iface.mtu)
    case Fwmark => NumberWritten(value, U32_MAX, d.iface.fwmark)
    case PreUp => d.iface.preUp == ParseCommaList(value)
    case PostUp => d.iface.postUp == ParseCommaList(value)
    case PreDown => d.iface.preDown == ParseCommaList(value)
    case PostDown => d.iface.postDown == ParseCommaList(value)
    case _ => NamesPeer(section, d) ==> PeerHolds(field, value, d.peers[section.idx])
  }

  predicate PeerHolds(field: EditableField, value: string, p: PeerConfig) {
    match field
    case PeerName => p.name == value
    case PeerPublicKey => value == ToBase64(p.publicKey)
    case PeerEndpoint => p.endpoint == if value == "" then None else Some(value)
    case PeerAllowedIps => p.allowedIps == ParseCommaList(value)
    case PeerPersistentKeepalive => NumberWritten(value, U16_MAX, p.persistentKeepalive)
    case _ => true
  }

  predicate AddressesWritten(tokens: seq<string>, ips: seq<IpAddr>) {
    |tokens| == |ips| && forall i :: 0 <= i < |ips| ==> ParseIp(tokens[i]) == Some(ips[i])
  }

  /** Nothing but this field differs: copying it over makes the two equal. */
  predicate OnlyDiffersIn(field: EditableField, section: ConfigSection, was: WgConfig, now: WgConfig) {
    var i, n := was.iface, now.iface;
    match field
    case ListenPort => now == was.(iface := i.(listenPort := n.listenPort))
    case Addresses => now == was.(iface := i.(addresses := n.addresses))
    case Dns => now == was.(iface := i.(dns := n.dns))
    case DnsSearch => now == was.(iface := i.(dnsSearch := n.dnsSearch))
    case Mtu => now == was.(iface := i.(mtu := n.mtu))
    case Fwmark => now == was.(iface := i.(fwmark := n.fwmark))
    case PreUp => now == was.(iface := i.(preUp := n.preUp))
    case PostUp => now == was.(iface := i.(postUp := n.postUp))
    case PreDown => now == was.(iface := i.(preDown := n.preDown))
    case PostDown => now == was.(iface := i.(postDown := n.postDown))
    case _ =>
      if NamesPeer(section, was) then
        && n == i && |now.peers| == |was.peers|
        && (forall k :: 0 <= k < |was.peers| && k != section.idx ==> now.peers[k] == was.peers[k])
        && PeerOnlyDiffersIn(field, was.peers[section.idx], now.peers[section.idx])
      else now == was
  }

  predicate PeerOnlyDiffersIn(field: EditableField, was: PeerConfig, now: PeerConfig) {
    match field
    case PeerName => now == was.(name := now.name)
    case PeerPublicKey => now == was.(publicKey := now.publicKey)
    case PeerEndpoint => now == was.(endpoint := now.endpoint)
    case PeerAllowedIps => now == was.(allowedIps := now.allowedIps)
    case PeerPersistentKeepalive => now == was.(persistentKeepalive := now.persistentKeepalive)
    case _ => now == was
  }

  lemma NumberHeld(value: string, wide: nat, narrow: nat)
    requires narrow <= wide && (value == "" || (ParseUInt(value, wide).Some? && ParseUInt(value, wide).value <= narrow))
    ensures NumberWritten(value, narrow, ParseOrZero(value, narrow))
  {
    WideParseAgrees(value, wide, narrow);
    hide ParseUInt;
    assert ParseUInt("", narrow) == None by { EmptyIsNoNumber(narrow); }
  }

  lemma EmptyIsNoNumber(max: nat)
    ensures ParseUInt("", max) == None
  {
  }

  lemma AcceptedNumber(field: EditableField, value: string, draft: WgConfig, section: ConfigSection)
    requires field in {ListenPort, Mtu, PeerPersistentKeepalive, Fwmark} && ValidateField(field, value, draft, section).Ok?
    ensures var max := if field == Fwmark then U32_MAX else U16_MAX;
            NumberWritten(value, max, ParseOrZero(value, max))
  {
    hide DecValue, AllDigits;
    if field == Mtu {
      NumberHeld(value, U16_MAX, U16_MAX);
    } else if field == Fwmark {
      NumberHeld(value, U32_MAX, U32_MAX);
    } else {
      NumberHeld(value, U32_MAX, U16_MAX);
    }
  }

  lemma ApplyWritesIface(field: EditableField, value: string, draft: WgConfig, section: ConfigSection)
    requires !PeerField(field) && field != PeerPublicKey && ValidateField(field, value, draft, section).Ok?
    ensures var d := ApplyField(field, value, draft, section);
            Holds(field, value, d, section) && OnlyDiffersIn(field, section, draft, d)
  {
    if field == Dns {
      AcceptedDnsIsWritten(value, draft, section);
    } else if field in {ListenPort, Mtu, Fwmark} {
      AcceptedNumber(field, value, draft, section);
    }
    hide ParseCommaList, ParseOrZero, ParseIps, ParseIp, ParseUInt, NumberWritten, ValidateField;
    if NamesPeer(section, draft) {
      assert draft.peers[section.idx := draft.peers[section.idx]] == draft.peers;
    }
  }

  lemma PeerFieldWritten(field: EditableField, value: string, p: PeerConfig)
    requires PeerField(field)
    requires field == PeerPersistentKeepalive ==> NumberWritten(value, U16_MAX, ParseOrZero(value, U16_MAX))
    ensures PeerHolds(field, value, ApplyPeerField(field, value, p))
    ensures PeerOnlyDiffersIn(field, p, ApplyPeerField(field, value, p))
  {
    hide ParseCommaList, ParseOrZero, NumberWritten;
  }

  lemma ApplyWritesPeer(field: EditableField, value: string, draft: WgConfig, section: ConfigSection)
    requires PeerField(field) && ValidateField(field, value, draft, section).Ok?
    ensures var d := ApplyField(field, value, draft, section);
            Holds(field, value, d, section) && OnlyDiffersIn(field, section, draft, d)
  {
    assert ApplyIfaceField(field, value, draft.iface) == draft.iface;
    hide NumberWritten, ValidateField, ApplyIfaceField, ApplyPeerField, PeerHolds, PeerOnlyDiffersIn;
    if field == PeerPersistentKeepalive {
      AcceptedNumber(field, value, draft, section);
    }
    if NamesPeer(section, draft) {
      PeerFieldWritten(field, value, draft.peers[section.idx]);
    }
  }

  /** What `apply_field` writes for an accepted value, and that it writes nothing else. */
  lemma ApplyWrites(field: EditableField, value: string, draft: WgConfig, section: ConfigSection)
    requires field != PeerPublicKey && ValidateField(field, value, draft, section).Ok?
    ensures var d := ApplyField(field, value, draft, section);
            Holds(field, value, d, section) && OnlyDiffersIn(field, section, draft, d)
  {
    hide ApplyField, Holds, OnlyDiffersIn, ValidateField;
    if PeerField(field) {
      ApplyWritesPeer(field, value, draft, section);
    } else {
      ApplyWritesIface(field, value, draft, section);
    }
  }

  lemma ConfirmWrites(e: ConfigEditState, value: string)
    requires ValidatePublicKey(value).Ok? && FocusedField(e) == PeerPublicKey
    ensures var d := ConfirmKey(e, value).draft;
            Holds(PeerPublicKey, value, d, e.focusedSection) && OnlyDiffersIn(PeerPublicKey, e.focusedSection, e.draft, d)
  {
    AcceptedKeyDecodes(value);
    var k := FromBase64(value).value;
    KeyTextIff(value, k);
    DecodableTrimmed(value);
    hide FromBase64, ValidatePublicKey, Decode, ToBase64, Trim, FocusedField;
  }

  /** Enter, as dispatched: an accepted text is what the draft then holds in the focused field, nothing else of
      the draft changes, and the field is closed; a refused one changes nothing but the error shown. */
  lemma EnterCommits(toml: Toml, s: State, e: ConfigEditState, value: string)
    requires s.configEdit == Some(e) && e.editBuffer == Some(value)
    ensures var after, field := Dispatch(toml, s, ConfigEditKey(Enter)), FocusedField(e);
            && after.configEdit.Some?
            && var n := after.configEdit.value;
            match ValidateField(field, value, e.draft, e.focusedSection)
            case Ok(_) =>
              && Holds(field, value, n.draft, e.focusedSection)
              && OnlyDiffersIn(field, e.focusedSection, e.draft, n.draft)
              && n.editBuffer == None && n.fieldError == None && after.inputMode == Normal
              && (n.focusedSection, n.focusedFieldIdx, n.connectionName)
                 == (e.focusedSection, e.focusedFieldIdx, e.connectionName)
            case Err(error) => after == s.(configEdit := Some(e.(fieldError := Some(error))))
  {
    hide ValidateField, ApplyField, WithKey, Holds, OnlyDiffersIn, FocusedField;
    if ValidateField(FocusedField(e), value, e.draft, e.focusedSection).Ok? {
      CommitWrites(e, value);
      hide Commit;
    }
  }

  lemma CommitWrites(e: ConfigEditState, value: string)
    requires ValidateField(FocusedField(e), value, e.draft, e.focusedSection).Ok?
    ensures var n, field := Commit(e, FocusedField(e), value), FocusedField(e);
            && Holds(field, value, n.draft, e.focusedSection)
            && OnlyDiffersIn(field, e.focusedSection, e.draft, n.draft)
            && n.editBuffer == None && n.fieldError == None
            && (n.focusedSection, n.focusedFieldIdx, n.connectionName)
               == (e.focusedSection, e.focusedFieldIdx, e.connectionName)
  {
    hide ApplyField, WithKey, Holds, OnlyDiffersIn, FocusedField;
    if FocusedField(e) == PeerPublicKey {
      ConfirmWrites(e, value);
    } else {
      hide ValidateField;
      ApplyWrites(FocusedField(e), value, e.draft, e.focusedSection);
    }
  }

  /** Confirming a key takes exactly that peer off the list of unconfirmed ones, and clears the session error
      when it was the last. */
  lemma EnterConfirms(toml: Toml, s: State, e: ConfigEditState, value: string)
    requires s.configEdit == Some(e) && e.editBuffer == Some(value)
    requires ValidateField(FocusedField(e), value, e.draft, e.focusedSection).Ok?
    ensures var n := Dispatch(toml, s, ConfigEditKey(Enter)).configEdit;
            && n.Some?
            && n.value.newPeerIndices == (if FocusedField(e) == PeerPublicKey && e.focusedSection.Peer?
                                          then e.newPeerIndices - {e.focusedSection.idx} else e.newPeerIndices)
            && (n.value.sessionError <==>
                  e.sessionError && !(FocusedField(e) == PeerPublicKey && n.value.newPeerIndices == {}))
  {
    hide ValidateField, ApplyField, WithKey;
    assert FocusedField(e) == PeerPublicKey ==> e.focusedSection.Peer?;
    hide FocusedField;
  }

  /** Escape gives the typed text up; any key without an open field does nothing. */
  lemma EscapeDiscards(toml: Toml, s: State, e: ConfigEditState, key: KeyCode)
    requires s.configEdit == Some(e)
    ensures e.editBuffer.Some? ==>
              Dispatch(toml, s, ConfigEditKey(Esc))
              == s.(configEdit := Some(e.(editBuffer := None, fieldError := None)), inputMode := Normal)
    ensures e.editBuffer.None? ==> Dispatch(toml, s, ConfigEditKey(key)) == s
  {
    hide ValidateField, Commit, FocusedField;
  }

  // ---- Typing ----

  function TypeAll(s: string): seq<Event> {
    if s == "" then [] else [Act(ConfigEditKey(Char(s[0])))] + TypeAll(s[1..])
  }

  ghost function After(toml: Toml, s: State, events: seq<Event>): State
    decreases |events|
  {
    if events == [] then s else
    After(toml, match events[0] case Act(a) => Dispatch(toml, s, a) case ReloadConfig(conns) => Reload(s, conns),
          events[1..])
  }

  /** Typing a text appends it to the open field, and nothing else changes. */
  lemma {:induction false} TypingAppends(toml: Toml, s: State, e: ConfigEditState, typed: string)
    requires s.configEdit == Some(e) && e.editBuffer.Some?
    ensures After(toml, s, TypeAll(typed)) == s.(configEdit := Some(e.(editBuffer := Some(e.editBuffer.value + typed))))
    decreases |typed|
  {
    if typed == "" {
      assert e.editBuffer.value + typed == e.editBuffer.value;
    } else {
      var next := e.(editBuffer := Some(e.editBuffer.value + [typed[0]]));
      TypeAllCons(typed);
      TypingAppends(toml, s.(configEdit := Some(next)), next, typed[1..]);
      assert e.editBuffer.value + [typed[0]] + typed[1..] == e.editBuffer.value + typed;
    }
  }

  lemma TypeAllCons(typed: string)
    requires typed != ""
    ensures TypeAll(typed) != [] && TypeAll(typed)[0] == Act(ConfigEditKey(Char(typed[0])))
    ensures TypeAll(typed)[1..] == TypeAll(typed[1..])
  {
  }

  /** Backspace takes back the last typed character, if there is one. */
  lemma BackspaceTakesBack(toml: Toml, s: State, e: ConfigEditState, buf: string, c: char)
    requires s.configEdit == Some(e) && e.editBuffer.Some?
    ensures e.editBuffer == Some(buf + [c]) ==>
              Dispatch(toml, s, ConfigEditKey(Backspace)) == s.(configEdit := Some(e.(editBuffer := Some(buf))))
    ensures e.editBuffer == Some("") ==> Dispatch(toml, s, ConfigEditKey(Backspace)) == s
  {
    hide ValidateField, Commit, FocusedField;
    if e.editBuffer == Some(buf + [c]) {
      assert e.editBuffer.value[..|e.editBuffer.value| - 1] == buf;
    }
  }

  /** A session opened on a field, its text typed out and entered: what the draft then holds is the old text of
      the field with the typed one behind it. */
  lemma OpenTypeEnter(toml: Toml, s: State, section: ConfigSection, fieldIdx: nat, typed: string)
    requires Target(s).Some? && fieldIdx < |FieldsForSection(section, false)|
    ensures var c, field := Target(s).value.config, FieldsForSection(section, false)[fieldIdx];
            var text := FieldCurrentValue(field, section, c) + typed;
            var after := After(toml, Dispatch(toml, s, EnterConfigEdit(section, fieldIdx)), TypeAll(typed));
            && after.inputMode == EditField
            && after.configEdit.Some?
            && after.configEdit.value.draft == c && after.configEdit.value.connectionName == Target(s).value.name
            && after.configEdit.value.newPeerIndices == {} && !after.configEdit.value.sessionError
            && FocusedField(after.configEdit.value) == field && after.configEdit.value.focusedSection == section
            && after.configEdit.value.editBuffer == Some(text) && after.configEdit.value.fieldError == None
  {
    hide FieldCurrentValue, Target, FieldsForSection;
    var start := Dispatch(toml, s, EnterConfigEdit(section, fieldIdx));
    var e := OpenSession(Target(s).value, section, fieldIdx);
    assert start == s.(configEdit := Some(e), inputMode := EditField);
    hide Dispatch;
    TypingAppends(toml, start, e, typed);
  }

  /** From opening to Enter: if the validator accepts the old text of the field with the typed one behind it,
      the draft afterwards is the stored configuration with exactly that field holding exactly that text;
      otherwise the draft is the stored configuration still. */
  lemma EditedFieldIsWritten(toml: Toml, s: State, section: ConfigSection, fieldIdx: nat, typed: string)
    requires Target(s).Some? && fieldIdx < |FieldsForSection(section, false)|
    ensures var c, field := Target(s).value.config, FieldsForSection(section, false)[fieldIdx];
            var text := FieldCurrentValue(field, section, c) + typed;
            var start := Dispatch(toml, s, EnterConfigEdit(section, fieldIdx));
            var done := Dispatch(toml, After(toml, start, TypeAll(typed)), ConfigEditKey(Enter));
            && done.configEdit.Some?
            && var draft := done.configEdit.value.draft;
            if ValidateField(field, text, c, section).Ok?
            then Holds(field, text, draft, section) && OnlyDiffersIn(field, section, c, draft)
            else draft == c
  {
    hide Dispatch, FieldCurrentValue, Target, FieldsForSection, ValidateField, Holds, OnlyDiffersIn, FocusedField, TypeAll,
         After;
    OpenTypeEnter(toml, s, section, fieldIdx, typed);
    var after := After(toml, Dispatch(toml, s, EnterConfigEdit(section, fieldIdx)), TypeAll(typed));
    var e := after.configEdit.value;
    EnterCommits(toml, after, e, e.editBuffer.value);
  }

  /** The connection a session opens on has the least of the visible names, and no other one of that name comes
      before it. */
  lemma OpensLeastVisible(s: State)
    ensures match Target(s)
            case Some(c) => IsLeast(c.name, s.visible) && exists i :: FirstNamed(s.connections, c.name, i) && s.connections[i] == c
            case None => s.visible == {} || exists n :: IsLeast(n, s.visible) && forall c :: c in s.connections ==> c.name != n
  {
    if s.visible != {} {
      StoredIsFirst(s.connections, Least(s.visible));
    }
    hide IsLeast, FirstNamed;
  }

  // ---- Focus ----

  /** The field after this one of `n`, the first after the last. */
  function NextField(i: nat, n: nat): nat {
    if i + 1 == n then 0 else i + 1
  }

  lemma FocusMoves(toml: Toml, s: State, e: ConfigEditState)
    requires s.configEdit == Some(e) && e.focusedFieldIdx < |FocusedFields(e)|
    ensures Dispatch(toml, s, ConfigFocusNext)
            == s.(configEdit := Some(e.(focusedFieldIdx := NextField(e.focusedFieldIdx, |FocusedFields(e)|))))
    ensures Dispatch(toml, s, ConfigFocusPrev)
            == s.(configEdit := Some(e.(focusedFieldIdx :=
                 if e.focusedFieldIdx == 0 then |FocusedFields(e)| - 1 else e.focusedFieldIdx - 1)))
  {
    Wraps(e.focusedFieldIdx, |FocusedFields(e)|);
    hide FocusedFields;
  }

  lemma Wraps(i: nat, n: nat)
    requires i < n
    ensures (i + 1) % n == NextField(i, n)
  {
  }

  /** Moving focus on and back again ends where it began. */
  lemma FocusThereAndBack(toml: Toml, s: State, e: ConfigEditState)
    requires s.configEdit == Some(e) && e.focusedFieldIdx < |FocusedFields(e)|
    ensures Dispatch(toml, Dispatch(toml, s, ConfigFocusNext), ConfigFocusPrev) == s
    ensures Dispatch(toml, Dispatch(toml, s, ConfigFocusPrev), ConfigFocusNext) == s
  {
    hide Dispatch, FieldsForSection;
    var n := |FocusedFields(e)|;
    var on := e.(focusedFieldIdx := NextField(e.focusedFieldIdx, n));
    var back := e.(focusedFieldIdx := if e.focusedFieldIdx == 0 then n - 1 else e.focusedFieldIdx - 1);
    FocusMoves(toml, s, e);
    FocusMoves(toml, s.(configEdit := Some(on)), on);
    FocusMoves(toml, s.(configEdit := Some(back)), back);
  }

  function Steps(a: Action, k: nat): seq<Event> {
    if k == 0 then [] else [Act(a)] + Steps(a, k - 1)
  }

  /** Focus steps through the fields in order: `k` steps on from a field lead to the k-th after it, and from
      the last one to the first. */
  lemma {:induction false} FocusCycles(toml: Toml, s: State, e: ConfigEditState, k: nat)
    requires s.configEdit == Some(e) && e.focusedFieldIdx < |FocusedFields(e)| && k <= |FocusedFields(e)|
    ensures After(toml, s, Steps(ConfigFocusNext, k))
            == s.(configEdit := Some(e.(focusedFieldIdx :=
                 if e.focusedFieldIdx + k < |FocusedFields(e)| then e.focusedFieldIdx + k
                 else e.focusedFieldIdx + k - |FocusedFields(e)|)))
    decreases k
  {
    hide Dispatch, FieldsForSection;
    if k == 0 {
    } else {
      var next := e.(focusedFieldIdx := NextField(e.focusedFieldIdx, |FocusedFields(e)|));
      FocusMoves(toml, s, e);
      assert Steps(ConfigFocusNext, k)[1..] == Steps(ConfigFocusNext, k - 1);
      FocusCycles(toml, s.(configEdit := Some(next)), next, k - 1);
    }
  }

  /** Choosing a section puts focus on its first field and touches nothing else. */
  lemma FocusSection(toml: Toml, s: State, e: ConfigEditState, i: nat)
    requires s.configEdit == Some(e)
    ensures Dispatch(toml, s, ConfigFocusInterface)
            == s.(configEdit := Some(e.(focusedSection := Interface, focusedFieldIdx := 0)))
    ensures Dispatch(toml, s, ConfigFocusPeer(i))
            == s.(configEdit := Some(e.(focusedSection := Peer(i), focusedFieldIdx := 0)))
  {
  }

  // ---- Adding and deleting peers ----

  /** Adding a peer appends an empty one, lists it as unconfirmed and opens its public key for typing. */
  lemma AddAppends(toml: Toml, s: State, e: ConfigEditState)
    requires s.configEdit == Some(e)
    ensures var after := Dispatch(toml, s, AddConfigPeer);
            && after.inputMode == EditField && after.configEdit.Some?
            && var n, last := after.configEdit.value, |e.draft.peers|;
            && |n.draft.peers| == last + 1 && n.draft.peers[..last] == e.draft.peers && n.draft.iface == e.draft.iface
            && n.draft.peers[last] == PeerConfig("", ZeroKey(), None, None, [], 0)
            && n.newPeerIndices == e.newPeerIndices + {last}
            && FocusedField(n) == PeerPublicKey && n.focusedSection == Peer(last)
            && n.editBuffer == Some("") && n.fieldError == None && n.sessionError == e.sessionError
  {
    hide FieldCurrentValue;
    var n := AddPeer(e);
    assert n.draft.peers[..|e.draft.peers|] == e.draft.peers;
    assert FocusedFields(n)[0] == PeerPublicKey;
  }

  /** Deleting takes exactly that peer out of the draft; focus stays on a peer of the same index if there is
      one, else on the last, else on the interface.  A missing index is ignored. */
  lemma DeleteRemoves(toml: Toml, s: State, e: ConfigEditState, i: nat)
    requires s.configEdit == Some(e)
    ensures i >= |e.draft.peers| ==> Dispatch(toml, s, DeleteConfigPeer(i)) == s
    ensures i < |e.draft.peers| ==>
              var after := Dispatch(toml, s, DeleteConfigPeer(i));
              && after.configEdit.Some? && after == s.(configEdit := after.configEdit)
              && var n := after.configEdit.value;
              && n.draft.peers == e.draft.peers[..i] + e.draft.peers[i + 1..] && n.draft.iface == e.draft.iface
              && n.focusedSection == (if e.focusedSection.Interface? || |e.draft.peers| == 1 then Interface
                                      else if e.focusedSection.idx < |e.draft.peers| - 1 then e.focusedSection
                                      else Peer(|e.draft.peers| - 2))
              && n.focusedFieldIdx <= e.focusedFieldIdx
              && (n.focusedFieldIdx < e.focusedFieldIdx ==>
                    n.draft.peers == [] || n.focusedFieldIdx + 1 == |FocusedFields(n)|)
              && (n.editBuffer, n.fieldError, n.connectionName) == (e.editBuffer, e.fieldError, e.connectionName)
  {
    hide FieldsForSection;
  }

  /** Adding a peer and deleting it again restores the draft and the unconfirmed peers. */
  lemma AddThenDelete(toml: Toml, s: State, e: ConfigEditState)
    requires s.configEdit == Some(e) && forall i :: i in e.newPeerIndices ==> i < |e.draft.peers|
    ensures var n := Dispatch(toml, Dispatch(toml, s, AddConfigPeer), DeleteConfigPeer(|e.draft.peers|)).configEdit;
            n.Some? && n.value.draft == e.draft && n.value.newPeerIndices == e.newPeerIndices
  {
    var added, last := AddPeer(e), |e.draft.peers|;
    hide FieldsForSection, BlankPeer, Refocus;
    assert Without(added.draft.peers, last) == e.draft.peers;
    assert Shifted(added.newPeerIndices, last) == e.newPeerIndices;
    RefocusKeeps(added.(draft := e.draft, newPeerIndices := e.newPeerIndices));
  }

  lemma RefocusKeeps(e: ConfigEditState)
    ensures Refocus(e).draft == e.draft && Refocus(e).newPeerIndices == e.newPeerIndices
  {
    hide FieldsForSection;
  }

  /** A peer deletion is asked for, then confirmed or declined; confirmed, it is the deletion itself. */
  lemma ConfirmedDeletion(toml: Toml, s: State, i: nat)
    ensures var asked := Dispatch(toml, s, RequestConfirm(DeletePeer(i)));
            && asked == s.(pendingConfirm := Some(DeletePeer(i)))
            && Dispatch(toml, asked, ConfirmYes) == Dispatch(toml, s.(pendingConfirm := None), DeleteConfigPeer(i))
            && Dispatch(toml, asked, ConfirmNo) == s.(pendingConfirm := None)
  {
    hide DeletePeerAt;
  }

  /** Confirming anything else, or nothing, leaves the session alone. */
  lemma OtherConfirmations(toml: Toml, s: State)
    requires s.pendingConfirm.None? || !s.pendingConfirm.value.DeletePeer?
    ensures Dispatch(toml, s, ConfirmYes) == s.(pendingConfirm := None)
  {
  }

  // ---- Preview ----

  /** A preview is stored exactly when no added peer lacks its key and no field error is showing; a lacking key
      is reported, and nothing else changes.  It shows the draft of the session: its old side is what is stored
      under the connection's name, its new side the draft. */
  lemma PreviewShowsDraft(toml: Toml, s: State, e: ConfigEditState)
    requires s.configEdit == Some(e)
    ensures var after := Dispatch(toml, s, PreviewConfig);
            if e.newPeerIndices != {} then after == s.(configEdit := Some(e.(sessionError := true)))
            else if e.fieldError.Some? then after == s
            else
              && after == s.(diffPending := after.diffPending) && after.diffPending.Some?
              && var p := after.diffPending.value;
              && p.draft == e.draft && p.connectionName == e.connectionName && p.scrollOffset == 0
              && NewSide(p.diffLines) == Lines(toml(e.draft))
              && OldSide(p.diffLines) == Lines(StoredText(toml, s, e.connectionName))
  {
    if e.newPeerIndices == {} && e.fieldError.None? {
      DiffSides(Lines(StoredToml(toml, s, e.connectionName)), Lines(toml(e.draft)));
      StoredIsFirst(s.connections, e.connectionName);
    }
    hide Lines, DiffOf, NewSide, OldSide;
  }

  /** The text of the configuration stored under a name, or no text when there is none. */
  ghost function StoredText(toml: Toml, s: State, name: string): string {
    if exists i :: FirstNamed(s.connections, name, i) then
      var i :| FirstNamed(s.connections, name, i);
      toml(s.connections[i].config)
    else ""
  }

  predicate FirstNamed(conns: seq<ConnectionView>, name: string, i: int) {
    0 <= i < |conns| && conns[i].name == name && forall j :: 0 <= j < i ==> conns[j].name != name
  }

  lemma {:induction false} StoredIsFirst(conns: seq<ConnectionView>, name: string)
    ensures FindConn(conns, name).None? ==> forall i :: !FirstNamed(conns, name, i)
    ensures FindConn(conns, name).Some? ==>
              exists i :: FirstNamed(conns, name, i) && conns[i] == FindConn(conns, name).value
  {
    if conns == [] {
    } else if conns[0].name == name {
      assert FirstNamed(conns, name, 0);
    } else {
      StoredIsFirst(conns[1..], name);
      if FindConn(conns, name).Some? {
        var i :| FirstNamed(conns[1..], name, i) && conns[1..][i] == FindConn(conns[1..], name).value;
        assert forall j :: 1 <= j < i + 1 ==> conns[j] == conns[1..][j - 1];
        assert FirstNamed(conns, name, i + 1);
      }
    }
  }

  /** The preview scrolls by one line, not above its top, and nothing else moves. */
  lemma PreviewScrolls(toml: Toml, s: State, p: ConfigDiffPending)
    requires s.diffPending == Some(p) && p.scrollOffset < USIZE_MAX
    ensures Dispatch(toml, s, ConfigDiffScrollDown) == s.(diffPending := Some(p.(scrollOffset := p.scrollOffset + 1)))
    ensures Dispatch(toml, Dispatch(toml, s, ConfigDiffScrollDown), ConfigDiffScrollUp) == s
    ensures p.scrollOffset == 0 ==> Dispatch(toml, s, ConfigDiffScrollUp) == s
  {
  }

  /** Saving and discarding end the session and drop the preview. */
  lemma SessionEnds(toml: Toml, s: State)
    ensures Dispatch(toml, s, SaveConfig) == s.(configEdit := None, diffPending := None)
    ensures Dispatch(toml, s, DiscardConfigEdits) == s.(configEdit := None, diffPending := None, inputMode := Normal)
  {
  }

  // ---- Tabs and visibility ----

  /** Changing tab while typing gives up the typed text and keeps the draft; otherwise only the tab changes. */
  lemma TabLeavesField(toml: Toml, s: State, a: Action)
    requires a.NextTab? || a.PrevTab? || a.SelectTab?
    ensures var after := Dispatch(toml, s, a);
            && (s.inputMode != EditField ==> after == s.(activeTab := after.activeTab))
            && (s.inputMode == EditField ==>
                  && after == s.(activeTab := after.activeTab, inputMode := Normal, configEdit := after.configEdit)
                  && (s.configEdit.None? ==> after.configEdit.None?)
                  && (s.configEdit.Some? ==>
                        after.configEdit == Some(s.configEdit.value.(editBuffer := None, fieldError := None))))
            && (a.SelectTab? ==> after.activeTab == a.tab)
  {
  }

  /** The tab to the right, the first again after the last. */
  function RightOf(t: Tab): Tab {
    match t
    case Overview => Status case Status => Peers case Peers => Compare
    case Compare => ConfigTab case ConfigTab => Logs case Logs => Overview
  }

  /** The tabs form one cycle, which the next and the previous tab follow in opposite directions. */
  lemma TabsCycle(toml: Toml, s: State)
    ensures Dispatch(toml, s, NextTab).activeTab == RightOf(s.activeTab)
    ensures RightOf(Dispatch(toml, s, PrevTab).activeTab) == s.activeTab
  {
    assert TABS[0] == Overview && TABS[1] == Status && TABS[2] == Peers && TABS[3] == Compare;
    assert TABS[4] == ConfigTab && TABS[5] == Logs;
    hide LeaveField;
  }

  /** A reload shows all connections and leaves the session alone. */
  lemma ReloadShowsAll(s: State, conns: seq<ConnectionView>)
    ensures var after := Reload(s, conns);
            && after == s.(connections := conns, visible := after.visible)
            && forall n :: n in after.visible <==> exists i :: 0 <= i < |conns| && conns[i].name == n
  {
  }

  /** Toggling shows or hides exactly that connection; twice is not at all. */
  lemma ToggleTwice(toml: Toml, s: State, name: string)
    ensures var once := Dispatch(toml, s, ToggleConnectionVisibility(name));
            && once == s.(visible := once.visible)
            && (forall n :: n in once.visible <==> (n in s.visible) != (n == name))
            && Dispatch(toml, once, ToggleConnectionVisibility(name)) == s
  {
    var once := Dispatch(toml, s, ToggleConnectionVisibility(name));
    assert (if name in once.visible then once.visible - {name} else once.visible + {name}) == s.visible;
  }

  /** The modes of the search and of the import and export prompts do not touch the session. */
  lemma ModesOnly(toml: Toml, s: State, a: Action)
    requires a in {EnterSearch, ExitSearch, ClearSearch, EnterImport, EnterExport, SubmitImport, ExitImport,
                   SubmitExport, ExitExport}
    ensures Dispatch(toml, s, a) == s.(inputMode :=
              if a == EnterSearch then Search else if a == EnterImport then Import
              else if a == EnterExport then Export else Normal)
  {
  }
}

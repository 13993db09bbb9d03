# ferro-wg: verified model of configuration, tunnels and logs

This project models the parts of ferro-wg whose correctness depends on more than one function, and proves
what holds over all inputs, all runs or all interleavings:

- the wg-quick parser and printer (`WgQuick*.dfy`, on `Text`, `Decimal`, `Ipv4`, `Ipv6`, `IpAddress`, `Base64Key`,
  `Config`);
- the config-edit session of the terminal UI (`ConfigEdit*.dfy`, `ValidatorLaws`, `ConfigDiff`, `Session`,
  `AppStateClass`, `SessionInvariants`, `SessionLaws`);
- the tunnel manager and the shared system DNS file (`Tunnel`, `TunnelManagerClass`, `TunnelLaws`, `TunnelOutcomes`);
- the log pipeline from buffer to streaming clients (`LogBuffers`, `LogPipeline`, `LogProgress`);
- the scrolling connection bar and the search highlighter (`ConnectionBar`, `Highlight`).

Code that changes things in place is written that way here too: builders, the application state, the tunnel
manager and the log buffer are classes, and the source's loops are loops. Each such method is proved equal to a
function, and the properties are lemmas about the functions. `dafny verify dfyconfig.toml` checks everything.

## Main results

- **Round trip.** Whatever the parser accepts prints to a text that parses to the same configuration, with the
  firewall mark reset to 0 (the printer never writes `FwMark`). Among all configurations that pass `validate`,
  load-after-export gives the configuration back, without mark and peer names, *if and only if* its strings are
  clean: trimmed, on one line, comma-free in lists, search domains non-empty and not addresses.
- **Sections.** Which texts are accepted, and with what result, is decided section by section against an independent
  definition; an error names the first unreadable line; a blank or comment line anywhere changes nothing but line numbers.
- **Meaning.** Key by key, what an accepted text loads as: list keys collect the values of all their lines, every other
  key takes its last one. And key by key, what a configuration prints as.
- **Edit session.** Ghost tags follow each peer through every index shift. In every run, `new_peer_indices` denotes
  exactly the added, unconfirmed peers; each peer of a previewed draft has its own stored key or the key accepted for
  that same peer, never an unconfirmed one; allowed IPs stay unique; the focused field always exists. From opening a
  field over typing to Enter, exactly the accepted text ends up in exactly that field; which texts are accepted, and
  with which error others are refused, is characterised field by field.
- **DNS file.** In every run of daemon commands with arbitrary failures, the file is the lines prepended since the
  last moment nobody held DNS, newest first, then the text of that moment; and that text is the original one under
  everything the run left behind, so the original is back exactly when every step restored.
- **Tunnels.** Exactly when each command succeeds, which error it reports otherwise, and that the connections and the
  status afterwards are the ones asked for.
- **Logs.** In every interleaving the entries are ordered and conserved up to eviction; a non-lagging client has no gap;
  nothing reaches a client more than twice; a late subscriber is shown exactly what is still buffered; a round of the
  broadcaster sends everything, and a client within the window receives all of it.
- **Bar and highlights.** The window fits and cannot be enlarged, and all is shown exactly when all fits; the drawn line fits; highlights are the unique leftmost
  non-overlapping matches.

## Where the code and its own text disagree

The model follows the code.

- `tunnel/dns.rs` says a DNS change that was not removed is restored by a future bring-up of the same tunnel. For
  the file-based method it is not: an `up` that fails after its DNS step leaves its lines (`FailedUpKeepsLines`), and
  any later up-and-down cycle puts back what it found (`CycleRestoresWhatItFound`). Two overlapping tunnels taken down
  in the order they came up leave the first one's lines (`OverlapLeavesLines`, concretely `OverlapExample`). The text
  of the last holder-free moment returns exactly when no line put in front of it stays behind: when the last holder's
  backup is put back, exactly when nobody wrote before that holder came up (`RestoredIffFirstToWrite`). The text from
  before the first command is back at a holder-free moment exactly when no step so far left a line behind
  (`FileOverOriginalText`; `FailedUpExample` is a run that leaves one).
- `connection_bar.rs` says 40 columns are enough for the selected entry and a neighbour. That holds exactly for
  short names, whichever entry is selected (`MinUsefulWidthIff`); a first name of 13 characters hides its neighbour
  (`MinUsefulWidthExample`).
- `config_edit.rs` calls its diff LCS-based. The lines it keeps are exactly those at the same position in both texts
  (`KeepsUnmovedLines`), so a line that merely moved is shown as removed and added (`InsertionExample`). It also
  promises up to three context lines around a change; every unchanged line is shown (`DiffSides`).
- Clients are said to be replayed history and then live entries. The two overlap: a client that has caught up was given
  exactly those entries twice that were in its history and not evicted before they could be sent (`GivenTwiceIff`), so
  its stream is without repeats exactly when its whole history was evicted (`NoRepeatIff`; `RepeatExample` is a run that
  delivers an entry twice).

## Model

| member | source | states |
|---|---|---|
| WgQuickLoops.LoadFromStr | ferro-wg-core/src/config/wg_quick.rs:40-95 | the line loop over builders computes `Load`, with the same first error and line number |
| WgQuickLoops.ParseInterfaceKv | ferro-wg-core/src/config/wg_quick.rs:238-302 | the interface builder afterwards is the specified draft, or is unchanged and the error is the specified one |
| WgQuickLoops.ParsePeerKv | ferro-wg-core/src/config/wg_quick.rs:305-352 | the same for a peer builder |
| WgQuickLoops.ParseKeyValue | ferro-wg-core/src/config/wg_quick.rs:66-83 | a key-value line goes to the current section; a peer line changes the last builder only; there always is one |
| WgQuickLoops.ExportToString | ferro-wg-core/src/config/wg_quick.rs:99-162 | the appended output is the specified lines, each ended by a newline |
| WgQuickLoops.WritePeer | ferro-wg-core/src/config/wg_quick.rs:141-159 | one printed peer section |
| WgQuick.KeyValueLine | ferro-wg-core/src/config/wg_quick.rs:66-83 | a peer section always has a peer to write to, and a key-value line never changes the number of peers |
| WgQuickRoundTrip.LoadedIsClean | ferro-wg-core/src/config/wg_quick.rs:40-95 | everything accepted is trimmed, single-line, comma-free, has real search domains, is valid and names no peer |
| WgQuickRoundTrip.LoadOfExport | ferro-wg-core/src/config/wg_quick.rs:40-162 | load after export gives back every valid clean configuration, mark and names erased |
| WgQuickRoundTrip.RoundTripIff | ferro-wg-core/src/config/wg_quick.rs:40-162 | for valid configurations the round trip succeeds if and only if the strings are clean |
| WgQuickRoundTrip.ExportOfLoadedParses | ferro-wg-core/src/config/wg_quick.rs:40-162 | export of any accepted text's configuration parses to it with the mark reset; no condition on the text |
| WgQuickRoundTrip.ExportIsCanonical | ferro-wg-core/src/config/wg_quick.rs:97-162 | the printed form is a fixed point of load-then-print |
| WgQuickRoundTrip.KeyedLineSplits | ferro-wg-core/src/config/wg_quick.rs:166-173 | a printed line splits at its first `=` into its key and the trimmed value, whatever the value contains |
| WgQuickRoundTrip.NameLinePlain | ferro-wg-core/src/config/mod.rs:32-61 | a validated name keeps its comment on one line |
| WgQuickRoundTrip.LinesOfExport | ferro-wg-core/src/config/wg_quick.rs:99-162 | the printed text splits back into exactly the lines written |
| WgQuickValues.PrintedInterface | ferro-wg-core/src/config/wg_quick.rs:99-138 | the printed interface gives each key its setting and nothing else |
| WgQuickValues.PrintedPeer | ferro-wg-core/src/config/wg_quick.rs:141-159 | the same for a printed peer |
| WgQuickValues.ExportExample | ferro-wg-core/src/config/wg_quick.rs:99-162 | a whole configuration as printed, in order, with the name comment |
| WgQuickSections.ParsedBySections | ferro-wg-core/src/config/wg_quick.rs:45-84 | the line loop succeeds if and only if no key-value line precedes the first header and every section reads on its own; interface and k-th peer are then what the lines under their own headers say |
| WgQuickSections.AcceptedIff | ferro-wg-core/src/config/wg_quick.rs:40-95 | exactly which texts load, in terms of their sections, and what is loaded; one peer per `[Peer]` header |
| WgQuickValues.LoadedMeans | ferro-wg-core/src/config/wg_quick.rs:176-352 | field by field what an accepted text loads as: list keys collect all their values in order, other keys take the last one or the default |
| WgQuickValues.AcceptedLinesIff | ferro-wg-core/src/config/wg_quick.rs:40-95 | exactly which texts load, line by line and key by key |
| WgQuickValues.ReasonOfBadLine | ferro-wg-core/src/config/wg_quick.rs:66-83 | why a line is refused: no `=`, no open section, an unknown key, or an unreadable value of the named key |
| WgQuickValues.MissingPartNamed | ferro-wg-core/src/config/wg_quick.rs:86-95 | which missing part a readable text is refused for, in order |
| WgQuickSections.ErrorNamesFirstBadLine | ferro-wg-core/src/config/wg_quick.rs:45-84 | a parse error carries the number of the first unreadable line |
| WgQuickSections.CommentsDoNotMatter | ferro-wg-core/src/config/wg_quick.rs:49-52 | inserting a blank or comment line before any line, or after the last newline, changes nothing but error line numbers |
| WgQuickSections.CommentsDoNotMatterAtTheEnd | ferro-wg-core/src/config/wg_quick.rs:45-52 | nor does one at the end, with or without a newline of its own, after a last line with or without one |
| Config.ValidateIff | ferro-wg-core/src/config/mod.rs:146-165 | exactly which configurations `validate` accepts |
| Config.NameIsSafe | ferro-wg-core/src/config/mod.rs:32-61 | exactly which names `validate_name` accepts |
| Config.ValidateReports | ferro-wg-core/src/config/mod.rs:146-165 | what `validate` reports: no peers, or the first faulty peer, its name before its allowed IPs |
| Config.NameRefusedFor | ferro-wg-core/src/config/mod.rs:32-61 | why a name is refused |
| Base64Key.KeyRoundTrip | ferro-wg-core/src/key.rs:89-98 | a key survives base64 text, which is one clean word |
| ValidatorLaws.KeyTextIff | ferro-wg-core/src/key.rs:89-98 | a key is read exactly from its own text, surrounding white space aside |
| Text.SplitTrimOfJoin | ferro-wg-core/src/config/wg_quick.rs:333-337 | a printed comma list splits back into its items |
| IpAddress.ParseIpOfShow | ferro-wg-core/src/config/wg_quick.rs:266-275 | a printed address, IPv4 or IPv6 (full, compressed or IPv4-mapped), parses back to itself |
| Ipv6.CompressedRunIsLongest | ferro-wg-core/src/config/wg_quick.rs:116-125 | what `::` stands for in a printed address is the first longest run of zero groups |
| ConfigEditLoops.CheckAllowedIps | ferro-wg-tui-core/src/config_edit.rs:309-333 | the loop with its `seen` set gives the specified first error |
| ConfigEditLaws.ValidateAllowedIpsIff | ferro-wg-tui-core/src/config_edit.rs:309-395 | accepted exactly when the tokens that will be written are valid, distinct and held by no other peer |
| ValidatorLaws.AllowedIpsError | ferro-wg-tui-core/src/config_edit.rs:309-333 | the error names the first faulty token and says what is wrong with it |
| ValidatorLaws.PortFields | ferro-wg-tui-core/src/config_edit.rs:166-347 | ports and keepalives: accepted within 16 bits, too high within 32, else no number |
| ValidatorLaws.NumbersInRange | ferro-wg-tui-core/src/config_edit.rs:233-258 | which printed numbers each number field accepts |
| ValidatorLaws.ListFields | ferro-wg-tui-core/src/config_edit.rs:179-227 | lists are accepted when every token is; the error names the first that is not |
| ValidatorLaws.CidrIff | ferro-wg-tui-core/src/config_edit.rs:705-722 | a range is an address and a fitting prefix length around the only slash |
| ValidatorLaws.EndpointIff | ferro-wg-tui-core/src/config_edit.rs:281-302 | which endpoints are accepted, and the error otherwise |
| ValidatorLaws.PublicKeyIff | ferro-wg-tui-core/src/config_edit.rs:266-277 | accepted exactly when it is the text of a key |
| ValidatorLaws.FormIsComplete | ferro-wg-tui-core/src/config_edit.rs:559-596 | each section offers each of its fields once |
| ConfigEditLaws.AcceptedNumbersAreWritten | ferro-wg-tui-core/src/config_edit.rs:166-258 | the writer stores the number the validator saw; the fallback to 0 is for the empty text only |
| ConfigEditLaws.AcceptedDnsIsWritten | ferro-wg-tui-core/src/config_edit.rs:624-634 | no accepted DNS token is dropped |
| ConfigEditLaws.AcceptedKeyDecodes | ferro-wg-tui-core/src/config_edit.rs:266-277 | an accepted key text decodes to the bytes that are written |
| ConfigEditLaws.CommitKeepsUniqueIps | ferro-wg-tui-core/src/config_edit.rs:678-701 | committing any accepted field keeps allowed IPs unique within and across peers |
| ConfigEditLaws.ReadBackIff | ferro-wg-tui-core/src/config_edit.rs:696-702 | a comma list re-reads as itself exactly when its items are non-empty, trimmed and comma-free |
| ConfigEditLaws.ReopenIff | ferro-wg-tui-core/src/config_edit.rs:408-693 | opening and committing a field unchanged is the identity exactly on the stated values |
| ConfigEdit.FieldsForSection | ferro-wg-tui-core/src/config_edit.rs:559-596 | the public key field exists for new peers only, and is the first |
| ConfigDiff.ComputeDiff | ferro-wg-tui-core/src/config_edit.rs:517-546 | the cursor loops compute the position-by-position diff |
| ConfigDiff.DiffSides | ferro-wg-tui-core/src/config_edit.rs:517-546 | the diff loses no line of either text |
| ConfigDiff.AllContextIff | ferro-wg-tui-core/src/config_edit.rs:517-546 | no change is shown exactly when the lines are equal |
| ConfigDiff.KeepsUnmovedLines | ferro-wg-tui-core/src/config_edit.rs:517-546 | as many lines are kept as positions hold the same line in both texts |
| ConfigDiff.InsertionExample | ferro-wg-tui-core/src/config_edit.rs:508-546 | an inserted line makes the line after it show as changed |
| AppStateClass.AppState.HandleAction | ferro-wg-tui-core/src/state.rs:343-398 | dispatch updates the fields to the specified state |
| AppStateClass.AppState.HandleConfigActions | ferro-wg-tui-core/src/state.rs:691-926 | the config-edit actions in place |
| AppStateClass.AppState.HandleEditKey | ferro-wg-tui-core/src/state.rs:720-788 | typing, committing and cancelling a field |
| SessionLaws.EditedFieldIsWritten | ferro-wg-tui-core/src/state.rs:693-788 | open, type, Enter: the draft is the stored configuration with exactly that field holding exactly the accepted text, or unchanged |
| SessionLaws.EnterCommits | ferro-wg-tui-core/src/state.rs:735-778 | what Enter leaves in the draft and in the session, accepted or refused |
| SessionLaws.EscapeDiscards | ferro-wg-tui-core/src/state.rs:779-788 | Escape gives the typed text up; keys without an open field do nothing |
| SessionLaws.FocusCycles | ferro-wg-tui-core/src/state.rs:790-813 | focus steps through the fields in order, around the end |
| SessionLaws.AddAppends | ferro-wg-tui-core/src/state.rs:820-843 | adding appends an empty peer, lists it as unconfirmed and opens its public key |
| SessionLaws.DeleteRemoves | ferro-wg-tui-core/src/state.rs:844-875 | deleting removes exactly that peer and keeps focus in range |
| SessionLaws.AddThenDelete | ferro-wg-tui-core/src/state.rs:820-875 | deleting the peer just added restores draft and unconfirmed peers |
| AppStateClass.AppState.HandleConfirmActions | ferro-wg-tui-core/src/state.rs:667-687 | a confirmed peer deletion happens at once |
| AppStateClass.AppState.HandleTabActions | ferro-wg-tui-core/src/state.rs:510-530 | changing tab abandons the field being typed into |
| AppStateClass.AppState.DeletePeerFromDraft | ferro-wg-tui-core/src/state.rs:844-875 | removal, index shift and refocus |
| AppStateClass.AppState.PreviewDraft | ferro-wg-tui-core/src/state.rs:876-904 | the gate on unconfirmed keys and the stored preview |
| SessionLaws.PreviewShowsDraft | ferro-wg-tui-core/src/state.rs:876-904 | exactly when a preview is stored; its old side is the stored configuration, its new side the draft |
| SessionLaws.OpensLeastVisible | ferro-wg-tui-core/src/state.rs:693-701 | which connection a session opens on |
| AppStateClass.AppState.ReloadFromConfig | ferro-wg-tui-core/src/state.rs:491-504 | a reload replaces the connections and shows all of them; session and preview stay |
| SessionInvariants.NewIndicesDenoteUnconfirmedPeers | ferro-wg-tui-core/src/state.rs:747-875 | in every run the index set denotes exactly the added peers without a confirmed key, in bounds |
| SessionInvariants.PreviewedKeysAreJustified | ferro-wg-tui-core/src/state.rs:876-903 | in every run each previewed peer has its own keys from the configuration stored under that connection when its session opened, or an accepted key written to that same peer; none is unconfirmed |
| SessionInvariants.ExistingKeysNeverChange | ferro-wg-tui-core/src/state.rs:745-763 | a session never changes the key or the order of the peers it did not add |
| SessionInvariants.AllowedIpsStayUnique | ferro-wg-tui-core/src/state.rs:745-848 | no draft or preview in any run repeats an allowed IP if no stored configuration does |
| SessionInvariants.FocusAlwaysExists | ferro-wg-tui-core/src/state.rs:790-875 | the focused section and field always exist; the `ListenPort` fallback is never taken |
| SessionInvariants.OpeningNeverPanics | ferro-wg-tui-core/src/state.rs:693-701 | the lookups when a session opens never panic if toggles name configured connections |
| Names.FindLeast | ferro-wg-tui-core/src/state.rs:696-696 | the least visible name, whatever the set's iteration order |
| TunnelManagerClass.TunnelManager.BringUp | ferro-wg-core/src/tunnel/mod.rs:83-188 | the new connections, DNS file and result of `up` |
| TunnelManagerClass.TunnelManager.TearDown | ferro-wg-core/src/tunnel/mod.rs:195-233 | the same for `down`, reverting DNS only for the last holder |
| TunnelManagerClass.TunnelManager.BringUpAll | ferro-wg-core/src/tunnel/mod.rs:240-253 | the loop over names, stopping at the first error |
| TunnelManagerClass.TunnelManager.TearDownAll | ferro-wg-core/src/tunnel/mod.rs:256-263 | the loop over the active names in any order |
| TunnelManagerClass.TunnelManager.ApplyResolvConf | ferro-wg-core/src/tunnel/dns.rs:440-454 | the lines go before the old contents, which become the backup |
| TunnelManagerClass.TunnelManager.HandleCommand | ferro-wg-core/src/daemon.rs:390-462 | reload when needed, then the command's effect and response |
| TunnelOutcomes.UpSucceedsIff | ferro-wg-core/src/tunnel/mod.rs:83-188 | exactly when `up` succeeds, and that it adds the connection asked for: backend, device, endpoint, DNS state |
| TunnelOutcomes.UpReports | ferro-wg-core/src/tunnel/mod.rs:83-188 | which error a failing `up` reports |
| TunnelOutcomes.SwitchResult | ferro-wg-core/src/daemon.rs:434-448 | after a successful switch the connection is on the new backend, and status says so |
| TunnelOutcomes.FailedSwitch | ferro-wg-core/src/daemon.rs:434-448 | a failed switch leaves the connection down |
| TunnelOutcomes.UpCommandResult | ferro-wg-core/src/daemon.rs:407-424 | after a successful up by name, connection and status are as asked for |
| TunnelOutcomes.UpAllCommandResult | ferro-wg-core/src/daemon.rs:407-424 | after a successful up for all, every configured connection is active, the new ones as asked for |
| TunnelOutcomes.Answers | ferro-wg-core/src/daemon.rs:407-462 | each command answers success or its error; a down takes out that connection, a down for all everything |
| TunnelOutcomes.StatusSays | ferro-wg-core/src/tunnel/mod.rs:266-287 | what status reports of active and inactive connections |
| TunnelOutcomes.ReloadsWhenAsked | ferro-wg-core/src/daemon.rs:390-462 | which commands read the configuration first, and what the others leave alone |
| TunnelOutcomes.DnsLinesAre | ferro-wg-core/src/tunnel/dns.rs:440-454 | the prepended text, line by line |
| TunnelLaws.ProcessIsPrims | ferro-wg-core/src/daemon.rs:407-462 | every command is a sequence of single ups and downs |
| TunnelLaws.DnsFileInEveryRun | ferro-wg-core/src/tunnel/mod.rs:125-233 | in every run the file is the prepended lines over the text of the last holder-free moment, and every backup is a suffix of it |
| TunnelLaws.LastHolderDown | ferro-wg-core/src/tunnel/mod.rs:215-229 | the last holder down gives the file from just before it came up, or leaves it if the revert fails; the epoch's text exactly when no line stays behind |
| TunnelLaws.RestoredIffFirstToWrite | ferro-wg-core/src/tunnel/mod.rs:215-229 | the same over every run of commands, with the resulting file |
| TunnelLaws.FileOverOriginalText | ferro-wg-core/src/tunnel/mod.rs:125-233 | in every run the file is the original text under all lines left behind and those prepended since; with no holder it is the original exactly when every step restored |
| TunnelLaws.FailedUpExample | ferro-wg-core/src/tunnel/mod.rs:125-156 | a concrete failed `up` whose line survives a clean cycle |
| TunnelLaws.CycleRestoresWhatItFound | ferro-wg-core/src/tunnel/dns.rs:541-549 | a later cycle of any connection restores the text it found, leaked lines included |
| TunnelLaws.OverlapLeavesLines | ferro-wg-core/src/tunnel/mod.rs:215-229 | last-in-first-out restores the file; first-in-first-out leaves the first connection's lines |
| TunnelLaws.OverlapExample | ferro-wg-core/src/tunnel/mod.rs:215-229 | a concrete run that ends with no connection and a changed file |
| TunnelLaws.DownAllResult | ferro-wg-core/src/tunnel/mod.rs:256-263 | nothing active afterwards; one revert if anyone held DNS, none otherwise, in any order |
| TunnelLaws.DownAllFile | ferro-wg-core/src/tunnel/mod.rs:256-263 | the file is reverted with the state of the last holder in the order |
| TunnelLaws.UpAllResult | ferro-wg-core/src/tunnel/mod.rs:240-253 | success: all configured names active; error: an initial run of the names; earlier connections untouched |
| LogBuffers.LogBuffer.AddEntry | ferro-wg-core/src/daemon.rs:47-59 | append, dropping the oldest entry at capacity |
| LogBuffers.LogBuffer.DrainLogs | ferro-wg-core/src/daemon.rs:78-85 | all entries out, buffer empty |
| LogBuffers.KeepsTheLast | ferro-wg-core/src/daemon.rs:27-59 | after any additions the buffer holds exactly the last entries that fit |
| LogPipeline.LogsAreOrderedAndConserved | ferro-wg-daemon/src/main.rs:53-66 | in every interleaving: order of addition kept, missing entries are exactly the evicted ones |
| LogPipeline.EvictedOnlyAtCapacity | ferro-wg-core/src/daemon.rs:47-59 | an entry is lost only as the oldest of a full buffer, and is newer than all already drained |
| LogPipeline.NoGapForNonLaggingClient | ferro-wg-core/src/daemon.rs:210-243 | live entries are contiguous since the subscription; everything unsent then is delivered, pending or evicted |
| LogProgress.LateSubscriberSees | ferro-wg-core/src/daemon.rs:210-223 | the history of a late subscriber is everything added and not yet drained or evicted, and opens its stream, whatever happens later |
| LogProgress.RoundSendsEverything | ferro-wg-daemon/src/main.rs:53-66 | one round of the broadcaster sends all that is in the pipeline, in order, and touches no client |
| LogProgress.ReceivesAll | ferro-wg-core/src/daemon.rs:225-243 | a client within the window receives everything sent and misses nothing |
| LogProgress.FallingBehind | ferro-wg-core/src/daemon.rs:225-243 | a client further behind loses exactly what the channel dropped, is told how much, and receives the rest |
| LogPipeline.StreamHasAtMostTwo | ferro-wg-core/src/daemon.rs:210-349 | each entry reaches a client exactly once for being in the replayed history and once for being live; nothing from before the subscription |
| LogPipeline.GivenTwiceIff | ferro-wg-core/src/daemon.rs:215-243 | a caught-up client was given an entry twice exactly when it was in its history and not evicted |
| LogPipeline.NoRepeatIff | ferro-wg-core/src/daemon.rs:215-243 | its stream has no repeat exactly when its whole history was evicted |
| LogPipeline.RepeatExample | ferro-wg-core/src/daemon.rs:215-243 | a concrete run that delivers one entry twice |
| ConnectionBar.DigitCount | ferro-wg-tui-components/src/connection_bar.rs:62-72 | repeated division counts the digits of the printed number |
| ConnectionBar.Viewport | ferro-wg-tui-components/src/connection_bar.rs:114-169 | the growth loop, with the selected entry in the window |
| ConnectionBar.ViewportIsMaximal | ferro-wg-tui-components/src/connection_bar.rs:95-169 | within budget, and no larger window around it is |
| ConnectionBar.AllShownIff | ferro-wg-tui-components/src/connection_bar.rs:126-130 | everything is in the window exactly when everything fits beside the full prefix |
| ConnectionBar.AllDrawnIff | ferro-wg-tui-components/src/connection_bar.rs:211-290 | the drawn line shows every connection exactly then, and ends in the right arrow otherwise |
| ConnectionBar.LineExample | ferro-wg-tui-components/src/connection_bar.rs:235-287 | a whole line as drawn |
| ConnectionBar.EntryWidthIsLength | ferro-wg-tui-components/src/connection_bar.rs:83-93 | the width is the real number of characters drawn |
| ConnectionBar.LineFitsArea | ferro-wg-tui-components/src/connection_bar.rs:99-109 | the exact width of the whole line, and that it fits the area |
| ConnectionBar.Render | ferro-wg-tui-components/src/connection_bar.rs:211-290 | the assembled line |
| ConnectionBar.NeighbourShownIff | ferro-wg-tui-components/src/connection_bar.rs:95-169 | a neighbour of the selected entry is shown exactly when everything fits or one of the two fits beside it |
| ConnectionBar.MinUsefulWidthIff | ferro-wg-tui-components/src/connection_bar.rs:29-39 | when 40 columns show the selected entry, whichever it is, and a neighbour |
| ConnectionBar.FirstWindowIsLargest | ferro-wg-tui-components/src/connection_bar.rs:95-97 | around the first entry, the one always drawn as selected, as many entries are shown as fit the budget |
| ConnectionBar.MinUsefulWidthExample | ferro-wg-tui-components/src/connection_bar.rs:29-39 | two connections of which 40 columns show one |
| Highlight.HighlightMatches | ferro-wg-tui-components/src/logs.rs:22-46 | the cursor loop computes the specified spans |
| Highlight.HighlightsAreLeftmostMatches | ferro-wg-tui-components/src/logs.rs:17-46 | spans join back to the text; highlighted ones are the leftmost non-overlapping matches up to case |
| Highlight.LeftmostUnique | ferro-wg-tui-components/src/logs.rs:34-41 | there is only one list of leftmost non-overlapping matches |
| Highlight.EveryOccurrenceIsMarked | ferro-wg-tui-components/src/logs.rs:34-41 | every occurrence overlaps a highlight |
| Highlight.HighlightIffLineMatches | ferro-wg-core/src/logs.rs:38-40 | a highlight is shown exactly when the search filter keeps the line |

## Left out

- Address text follows the standard library: `Ipv4Addr` and `Ipv6Addr` as they print and parse; zone identifiers are not part of either.
- Error texts: reasons are structured values, not the formatted messages; base64 errors are not told apart.
- Unicode letters in search domains: `is_valid_domain` accepts ASCII letters and digits here; no property depends on which letters it accepts.
- `apply_field` and the draft: the draft is a value inside the session, replaced as a whole; in-place writes through references and aliasing are not modelled.
- TOML encoding: a function parameter; the preview's diff is proved for any such function.
- State the session does not touch: toasts, benchmarks, themes, status updates, import, export and search text, log filters, and the text of confirmation dialogs.
- Key routing of the terminal UI, which dispatches a confirmed peer deletion a second time; the session results are about `AppState::dispatch`.
- An open session is replaced by the next `EnterConfigEdit`, edits included; the model does the same and each result is about the session that is open.
- TUN devices, UDP sockets, routes, endpoint resolution, `resolvectl`, the packet loop and the backends: each call succeeds or fails as the environment says; a failed write leaves the DNS file as it was.
- The macOS and the no-op DNS implementations.
- Other programs writing the DNS file.
- `handle_stream_logs` and the broadcaster loop are steps of the protocol, not loops; poisoned mutexes are not modelled.
- The broadcast channel keeps a fixed number of sent entries, given as a parameter; rounding of requested capacities is not modelled.
- Message contents, levels and times of log entries: entries are numbers.
- Colours, styles and drawing; widths count characters, as the source does.
- The number of entries in the connection bar's window is the largest possible around the first entry, the only one ever drawn as selected; around another, growth alternates sides, and what is proved is that the window cannot be enlarged.
- Minimality of the configuration diff, and an upper bound on its scroll offset below the machine's largest integer.

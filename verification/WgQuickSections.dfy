/** Which lines of a wg-quick text decide which part of the configuration. */
module WgQuickSections {
  import opened Wrappers
  import opened Text
  import opened Config
  import opened WgQuick
  import opened WgQuickRoundTrip

  // ---- Sections as a reference definition ----

  /** The whole interface, or the peer started by the k-th `[Peer]` header. */
  datatype Owner = OfInterface | OfPeer(k: nat)

  /** Who owns a key-value line after `peers` peer headers, the nearest header being of this section. */
  predicate Owns(who: Owner, section: Section, peers: nat) {
    match who
    case OfInterface => section == Interface
    case OfPeer(k) => section == Peer && peers == k + 1
  }

  /** A blank line or a comment, in the words of the format. */
  predicate Ignored(line: string) {
    line == "" || line[0] in "#;"
  }

  /** A section header, in any letter case. */
  predicate Opens(line: string, section: Section) {
    match section
    case NoSection => false
    case Interface => Lower(line) == "[interface]"
    case Peer => Lower(line) == "[peer]"
  }

  predicate IsKeyValue(line: string) {
    !Ignored(line) && !Opens(line, Interface) && !Opens(line, Peer)
  }

  /** The section in force after a line. */
  function SectionAfter(section: Section, line: string): Section {
    if Opens(line, Interface) then Interface else if Opens(line, Peer) then Peer else section
  }

  function HeadersIn(line: string): nat {
    if Opens(line, Peer) then 1 else 0
  }

  /** The parser sorts its lines the same way. */
  lemma LineKinds(line: string)
    ensures Skipped(line) <==> Ignored(line)
    ensures !Skipped(line) ==> (IsInterfaceHeader(line) <==> Opens(line, Interface))
    ensures !Skipped(line) ==> (IsPeerHeader(line) <==> Opens(line, Peer))
    ensures Ignored(line) ==> !Opens(line, Interface) && !Opens(line, Peer)
    ensures !(Opens(line, Interface) && Opens(line, Peer))
  {
    assert "[interface]"[0] == '[' && "[peer]"[0] == '[' && "[interface]"[1] != "[peer]"[1];
    if line != "" {
      assert Lower(line)[0] == LowerChar(line[0]);
    }
  }

  function OwnedLine(who: Owner, line: string, section: Section, peers: nat): seq<string> {
    if IsKeyValue(line) && Owns(who, section, peers) then [line] else []
  }

  /** The key-value lines whose nearest preceding header belongs to `who`, in order. */
  function OwnedLines(who: Owner, lines: seq<string>, section: Section, peers: nat): seq<string>
    decreases |lines|
  {
    if lines == [] then [] else
    var line := Trim(lines[0]);
    OwnedLine(who, line, section, peers)
    + OwnedLines(who, lines[1..], SectionAfter(section, line), peers + HeadersIn(line))
  }

  /** The number of `[Peer]` headers. */
  function PeerHeaders(lines: seq<string>): nat {
    if lines == [] then 0
    else HeadersIn(Trim(lines[0])) + PeerHeaders(lines[1..])
  }

  /** Reading a section body on its own. */
  function ReadIface(i: IfaceDraft, body: seq<string>): Option<IfaceDraft>
    decreases |body|
  {
    if body == [] then Some(i) else
    match SplitKv(body[0])
    case None => None
    case Some((k, v)) => (match InterfaceKv(i, k, v)
                          case Ok(j) => ReadIface(j, body[1..])
                          case Err(_) => None)
  }

  function ReadPeer(p: PeerDraft, body: seq<string>): Option<PeerDraft>
    decreases |body|
  {
    if body == [] then Some(p) else
    match SplitKv(body[0])
    case None => None
    case Some((k, v)) => (match PeerKv(p, k, v)
                          case Ok(q) => ReadPeer(q, body[1..])
                          case Err(_) => None)
  }

  /** What one line does to the section in force, the number of peers and the interface. */
  lemma LineEffect(st: ParseState, raw: string)
    requires Reachable(st) && ParseLine(st, raw).Ok?
    ensures var line, next := Trim(raw), ParseLine(st, raw).value;
            && next.section == SectionAfter(st.section, line)
            && |next.peers| == |st.peers| + HeadersIn(line)
            && ReadIface(st.iface, OwnedLine(OfInterface, line, st.section, |st.peers|)) == Some(next.iface)
  {
    hide InterfaceKv, PeerKv, Trim, SplitKv, IsInterfaceHeader, IsPeerHeader, Skipped, Opens, Ignored;
    LineKinds(Trim(raw));
    assert forall line: string :: [line][1..] == [];
  }

  function PeerOrEmpty(st: ParseState, k: nat): PeerDraft {
    if k < |st.peers| then st.peers[k] else EMPTY_PEER
  }

  lemma LineEffectOnPeer(st: ParseState, raw: string, k: nat)
    requires Reachable(st) && ParseLine(st, raw).Ok?
    ensures ReadPeer(PeerOrEmpty(st, k), OwnedLine(OfPeer(k), Trim(raw), st.section, |st.peers|))
            == Some(PeerOrEmpty(ParseLine(st, raw).value, k))
  {
    hide InterfaceKv, PeerKv, Trim, SplitKv, IsInterfaceHeader, IsPeerHeader, Skipped, Opens, Ignored;
    LineKinds(Trim(raw));
    assert forall line: string :: [line][1..] == [];
  }

  lemma {:induction false} ReadIfaceAppend(i: IfaceDraft, a: seq<string>, j: IfaceDraft, b: seq<string>)
    requires ReadIface(i, a) == Some(j)
    ensures ReadIface(i, a + b) == ReadIface(j, b)
    decreases |a|
  {
    hide InterfaceKv, SplitKv;
    if a == [] {
      assert a + b == b;
    } else {
      var (k, v) := SplitKv(a[0]).value;
      ReadIfaceAppend(InterfaceKv(i, k, v).value, a[1..], j, b);
      assert (a + b)[0] == a[0] && (a + b)[1..] == a[1..] + b;
    }
  }

  lemma {:induction false} ReadPeerAppend(p: PeerDraft, a: seq<string>, q: PeerDraft, b: seq<string>)
    requires ReadPeer(p, a) == Some(q)
    ensures ReadPeer(p, a + b) == ReadPeer(q, b)
    decreases |a|
  {
    hide PeerKv, SplitKv;
    if a == [] {
      assert a + b == b;
    } else {
      var (k, v) := SplitKv(a[0]).value;
      ReadPeerAppend(PeerKv(p, k, v).value, a[1..], q, b);
      assert (a + b)[0] == a[0] && (a + b)[1..] == a[1..] + b;
    }
  }

  lemma {:induction false} InterfaceReadsItsLines(st: ParseState, lines: seq<string>, done: nat)
    requires Reachable(st) && ParseLines(st, lines, done).Ok?
    ensures var end := ParseLines(st, lines, done).value;
            && |end.peers| == |st.peers| + PeerHeaders(lines)
            && ReadIface(st.iface, OwnedLines(OfInterface, lines, st.section, |st.peers|)) == Some(end.iface)
    decreases |lines|
  {
    hide ParseLine, Trim, SectionAfter, HeadersIn, OwnedLine;
    if lines == [] {
    } else {
      var line := Trim(lines[0]);
      var next := ParseLine(st, lines[0]).value;
      LineEffect(st, lines[0]);
      InterfaceReadsItsLines(next, lines[1..], done + 1);
      hide ReadIface;
      ReadIfaceAppend(st.iface, OwnedLine(OfInterface, line, st.section, |st.peers|), next.iface,
                      OwnedLines(OfInterface, lines[1..], next.section, |next.peers|));
    }
  }

  lemma {:induction false} PeerReadsItsLines(st: ParseState, lines: seq<string>, done: nat, k: nat)
    requires Reachable(st) && ParseLines(st, lines, done).Ok?
    ensures ReadPeer(PeerOrEmpty(st, k), OwnedLines(OfPeer(k), lines, st.section, |st.peers|))
            == Some(PeerOrEmpty(ParseLines(st, lines, done).value, k))
    decreases |lines|
  {
    hide ParseLine, Trim, SectionAfter, HeadersIn, OwnedLine, PeerOrEmpty;
    if lines == [] {
    } else {
      var line := Trim(lines[0]);
      var next := ParseLine(st, lines[0]).value;
      LineEffect(st, lines[0]);
      LineEffectOnPeer(st, lines[0], k);
      PeerReadsItsLines(next, lines[1..], done + 1, k);
      hide ReadPeer;
      ReadPeerAppend(PeerOrEmpty(st, k), OwnedLine(OfPeer(k), line, st.section, |st.peers|), PeerOrEmpty(next, k),
                     OwnedLines(OfPeer(k), lines[1..], next.section, |next.peers|));
    }
  }

  /** No key-value line comes before the first header. */
  predicate NoOrphans(lines: seq<string>, section: Section)
    decreases |lines|
  {
    lines != [] ==>
      (section == NoSection ==> !IsKeyValue(Trim(lines[0]))) && NoOrphans(lines[1..], SectionAfter(section, Trim(lines[0])))
  }

  /** A line that cannot be read is an orphan, or the body of its own section cannot be read either. */
  lemma BadLineIsKeyValue(st: ParseState, raw: string)
    requires Reachable(st) && ParseLine(st, raw).Err?
    ensures IsKeyValue(Trim(raw))
    ensures st.section == Interface ==> ReadIface(st.iface, [Trim(raw)]).None?
    ensures st.section == Peer ==> st.peers != [] && ReadPeer(st.peers[|st.peers| - 1], [Trim(raw)]).None?
  {
    hide InterfaceKv, PeerKv, Trim, SplitKv, IsInterfaceHeader, IsPeerHeader, Skipped, Opens, Ignored;
    LineKinds(Trim(raw));
  }

  lemma {:induction false} ReadIfaceStuck(i: IfaceDraft, a: seq<string>, b: seq<string>)
    requires ReadIface(i, a).None?
    ensures ReadIface(i, a + b).None?
    decreases |a|
  {
    hide InterfaceKv;
    assert (a + b)[0] == a[0] && (a + b)[1..] == a[1..] + b;
    if SplitKv(a[0]).Some? && InterfaceKv(i, SplitKv(a[0]).value.0, SplitKv(a[0]).value.1).Ok? {
      ReadIfaceStuck(InterfaceKv(i, SplitKv(a[0]).value.0, SplitKv(a[0]).value.1).value, a[1..], b);
    }
  }

  lemma {:induction false} ReadPeerStuck(p: PeerDraft, a: seq<string>, b: seq<string>)
    requires ReadPeer(p, a).None?
    ensures ReadPeer(p, a + b).None?
    decreases |a|
  {
    hide PeerKv;
    assert (a + b)[0] == a[0] && (a + b)[1..] == a[1..] + b;
    if SplitKv(a[0]).Some? && PeerKv(p, SplitKv(a[0]).value.0, SplitKv(a[0]).value.1).Ok? {
      ReadPeerStuck(PeerKv(p, SplitKv(a[0]).value.0, SplitKv(a[0]).value.1).value, a[1..], b);
    }
  }

  /** Every section can be read on its own, from these lines on. */
  ghost predicate SectionsRead(st: ParseState, lines: seq<string>) {
    && NoOrphans(lines, st.section)
    && ReadIface(st.iface, OwnedLines(OfInterface, lines, st.section, |st.peers|)).Some?
    && forall k: nat :: k < |st.peers| + PeerHeaders(lines) ==>
         ReadPeer(PeerOrEmpty(st, k), OwnedLines(OfPeer(k), lines, st.section, |st.peers|)).Some?
  }

  lemma SectionsReadTail(st: ParseState, lines: seq<string>)
    requires Reachable(st) && lines != [] && ParseLine(st, lines[0]).Ok? && SectionsRead(st, lines)
    ensures SectionsRead(ParseLine(st, lines[0]).value, lines[1..])
  {
    hide ParseLine, ReadIface, ReadPeer, OwnedLine, Trim, PeerOrEmpty, SectionAfter, HeadersIn, IsKeyValue;
    var line, next := Trim(lines[0]), ParseLine(st, lines[0]).value;
    LineEffect(st, lines[0]);
    ReadIfaceAppend(st.iface, OwnedLine(OfInterface, line, st.section, |st.peers|), next.iface,
                    OwnedLines(OfInterface, lines[1..], next.section, |next.peers|));
    forall k: nat | k < |next.peers| + PeerHeaders(lines[1..])
      ensures ReadPeer(PeerOrEmpty(next, k), OwnedLines(OfPeer(k), lines[1..], next.section, |next.peers|)).Some?
    {
      LineEffectOnPeer(st, lines[0], k);
      ReadPeerAppend(PeerOrEmpty(st, k), OwnedLine(OfPeer(k), line, st.section, |st.peers|), PeerOrEmpty(next, k),
                     OwnedLines(OfPeer(k), lines[1..], next.section, |next.peers|));
    }
  }

  lemma OwnedLinesCons(who: Owner, lines: seq<string>, section: Section, peers: nat)
    requires lines != []
    ensures var line := Trim(lines[0]);
            OwnedLines(who, lines, section, peers)
            == OwnedLine(who, line, section, peers)
               + OwnedLines(who, lines[1..], SectionAfter(section, line), peers + HeadersIn(line))
  {
    hide OwnedLine, Trim, SectionAfter, HeadersIn;
  }

  lemma BadInterfaceLine(st: ParseState, lines: seq<string>)
    requires Reachable(st) && lines != [] && ParseLine(st, lines[0]).Err? && st.section == Interface
    ensures ReadIface(st.iface, OwnedLines(OfInterface, lines, st.section, |st.peers|)).None?
  {
    BadLineIsKeyValue(st, lines[0]);
    hide ParseLine, ReadIface, OwnedLines, Trim, SectionAfter, HeadersIn, IsKeyValue;
    var line := Trim(lines[0]);
    OwnedLinesCons(OfInterface, lines, st.section, |st.peers|);
    ReadIfaceStuck(st.iface, [line],
                   OwnedLines(OfInterface, lines[1..], SectionAfter(st.section, line), |st.peers| + HeadersIn(line)));
  }

  lemma BadPeerLine(st: ParseState, lines: seq<string>, k: nat)
    requires Reachable(st) && lines != [] && ParseLine(st, lines[0]).Err? && st.section == Peer && k + 1 == |st.peers|
    ensures ReadPeer(PeerOrEmpty(st, k), OwnedLines(OfPeer(k), lines, st.section, |st.peers|)).None?
  {
    BadLineIsKeyValue(st, lines[0]);
    hide ParseLine, ReadPeer, OwnedLines, Trim, SectionAfter, HeadersIn, IsKeyValue;
    var line := Trim(lines[0]);
    OwnedLinesCons(OfPeer(k), lines, st.section, |st.peers|);
    ReadPeerStuck(st.peers[k], [line],
                  OwnedLines(OfPeer(k), lines[1..], SectionAfter(st.section, line), |st.peers| + HeadersIn(line)));
  }

  lemma BadLineStopsItsSection(st: ParseState, lines: seq<string>)
    requires Reachable(st) && lines != [] && ParseLine(st, lines[0]).Err?
    ensures !SectionsRead(st, lines)
  {
    BadLineIsKeyValue(st, lines[0]);
    hide ParseLine, ReadIface, ReadPeer, OwnedLines, Trim, PeerOrEmpty, IsKeyValue;
    match st.section
    case NoSection =>
    case Interface => BadInterfaceLine(st, lines);
    case Peer => BadPeerLine(st, lines, |st.peers| - 1);
  }

  lemma {:induction false} ParsesIffSectionsRead(st: ParseState, lines: seq<string>, done: nat)
    requires Reachable(st)
    ensures ParseLines(st, lines, done).Ok? <==> SectionsRead(st, lines)
    decreases |lines|
  {
    hide ParseLine, SectionsRead;
    if lines == [] {
      NothingToRead(st);
    } else if ParseLine(st, lines[0]).Err? {
      BadLineStopsItsSection(st, lines);
    } else {
      ParsesIffSectionsRead(ParseLine(st, lines[0]).value, lines[1..], done + 1);
      if ParseLines(st, lines, done).Ok? {
        ParsedSectionsRead(st, lines, done);
      } else if SectionsRead(st, lines) {
        SectionsReadTail(st, lines);
      }
    }
  }

  lemma NothingToRead(st: ParseState)
    ensures SectionsRead(st, [])
  {
  }

  lemma {:induction false} NoOrphansWhenParsed(st: ParseState, lines: seq<string>, done: nat)
    requires Reachable(st) && ParseLines(st, lines, done).Ok?
    ensures NoOrphans(lines, st.section)
    decreases |lines|
  {
    hide Trim, IsInterfaceHeader, IsPeerHeader, Skipped, SplitKv, Opens, Ignored;
    if lines == [] {
    } else {
      LineKinds(Trim(lines[0]));
      LineEffect(st, lines[0]);
      NoOrphansWhenParsed(ParseLine(st, lines[0]).value, lines[1..], done + 1);
    }
  }

  lemma ParsedSectionsRead(st: ParseState, lines: seq<string>, done: nat)
    requires Reachable(st) && ParseLines(st, lines, done).Ok?
    ensures SectionsRead(st, lines)
  {
    hide ParseLines, ReadIface, ReadPeer, OwnedLines, PeerOrEmpty, NoOrphans;
    NoOrphansWhenParsed(st, lines, done);
    InterfaceReadsItsLines(st, lines, done);
    forall k: nat | k < |st.peers| + PeerHeaders(lines)
      ensures ReadPeer(PeerOrEmpty(st, k), OwnedLines(OfPeer(k), lines, st.section, |st.peers|)).Some?
    {
      PeerReadsItsLines(st, lines, done, k);
    }
  }

  // ---- The whole text, section by section ----

  /** What the `[Interface]` lines of a text say, all such sections together. */
  function InterfaceSection(text: string): Option<IfaceDraft> {
    ReadIface(EMPTY_IFACE, OwnedLines(OfInterface, Lines(text), NoSection, 0))
  }

  /** What the lines under the k-th `[Peer]` header say. */
  function PeerSection(text: string, k: nat): Option<PeerDraft> {
    ReadPeer(EMPTY_PEER, OwnedLines(OfPeer(k), Lines(text), NoSection, 0))
  }

  lemma SectionsReadFromStart(text: string)
    ensures SectionsRead(START, Lines(text)) <==>
            && NoOrphans(Lines(text), NoSection)
            && InterfaceSection(text).Some?
            && forall k: nat :: k < PeerHeaders(Lines(text)) ==> PeerSection(text, k).Some?
  {
    hide OwnedLines, ReadPeer, ReadIface, Lines, PeerHeaders, NoOrphans;
    forall k: nat
      ensures PeerSection(text, k)
              == ReadPeer(PeerOrEmpty(START, k), OwnedLines(OfPeer(k), Lines(text), START.section, |START.peers|))
    {
    }
  }

  /** The line loop succeeds if and only if no key-value line precedes the first header and every section can
      be read on its own; it then holds what the sections say, one peer for each `[Peer]` header. */
  lemma ParsedBySections(text: string)
    ensures var r := ParseLines(START, Lines(text), 0);
            && (r.Ok? <==>
                  && NoOrphans(Lines(text), NoSection)
                  && InterfaceSection(text).Some?
                  && forall k: nat :: k < PeerHeaders(Lines(text)) ==> PeerSection(text, k).Some?)
            && (r.Ok? ==>
                  && InterfaceSection(text) == Some(r.value.iface)
                  && |r.value.peers| == PeerHeaders(Lines(text))
                  && forall k: nat :: k < |r.value.peers| ==> PeerSection(text, k) == Some(r.value.peers[k]))
  {
    hide ParseLines, OwnedLines, ReadPeer, ReadIface, Lines, PeerHeaders, NoOrphans, SectionsRead;
    var r := ParseLines(START, Lines(text), 0);
    ParsesIffSectionsRead(START, Lines(text), 0);
    SectionsReadFromStart(text);
    if r.Ok? {
      InterfaceReadsItsLines(START, Lines(text), 0);
      forall k: nat | k < |r.value.peers|
        ensures PeerSection(text, k) == Some(r.value.peers[k])
      {
        PeerReadsItsLines(START, Lines(text), 0, k);
      }
    }
  }

  /** The peer section has what a peer needs. */
  predicate CompletePeer(p: PeerDraft) {
    p.publicKey.Some? && p.allowedIps != []
  }

  lemma {:induction false} ReadPeerNoName(p: PeerDraft, body: seq<string>)
    requires p.name == ""
    ensures ReadPeer(p, body).Some? ==> ReadPeer(p, body).value.name == ""
    decreases |body|
  {
    hide SplitTrim, SplitKv, Lower;
    if body == [] || SplitKv(body[0]).None? {
    } else {
      var (k, v) := SplitKv(body[0]).value;
      if PeerKv(p, k, v).Ok? {
        ReadPeerNoName(PeerKv(p, k, v).value, body[1..]);
      }
    }
  }

  /** Exactly which texts are accepted: no key-value line before the first header, every section readable, a
      private key, at least one `[Peer]` header, and a public key and an allowed IP for each; and what is
      loaded is what the sections say. */
  lemma AcceptedIff(text: string)
    ensures Load(text).Ok? <==>
            && NoOrphans(Lines(text), NoSection)
            && InterfaceSection(text).Some? && InterfaceSection(text).value.privateKey.Some?
            && PeerHeaders(Lines(text)) > 0
            && forall k: nat :: k < PeerHeaders(Lines(text)) ==>
                 PeerSection(text, k).Some? && CompletePeer(PeerSection(text, k).value)
    ensures Load(text).Ok? ==>
            var c := Load(text).value;
            && BuildIface(InterfaceSection(text).value) == Ok(c.iface)
            && |c.peers| == PeerHeaders(Lines(text))
            && forall k: nat :: k < |c.peers| ==> BuildPeer(PeerSection(text, k).value) == Ok(c.peers[k])
  {
    hide ParseLines, Lines, NoOrphans, InterfaceSection, PeerSection, PeerHeaders, Validate;
    ParsedBySections(text);
    var r := ParseLines(START, Lines(text), 0);
    if r.Ok? {
      forall k: nat | k < |r.value.peers|
        ensures r.value.peers[k].name == ""
      {
        NoNameInSection(text, k);
      }
      FinishIff(r.value);
    }
  }

  lemma NoNameInSection(text: string, k: nat)
    ensures PeerSection(text, k).Some? ==> PeerSection(text, k).value.name == ""
  {
    hide ReadPeer;
    ReadPeerNoName(EMPTY_PEER, OwnedLines(OfPeer(k), Lines(text), NoSection, 0));
  }

  lemma FinishIff(st: ParseState)
    requires forall k :: 0 <= k < |st.peers| ==> st.peers[k].name == ""
    ensures Finish(st).Ok? <==>
            st.iface.privateKey.Some? && st.peers != [] && forall k :: 0 <= k < |st.peers| ==> CompletePeer(st.peers[k])
    ensures Finish(st).Ok? ==>
            var c := Finish(st).value;
            && BuildIface(st.iface) == Ok(c.iface)
            && |c.peers| == |st.peers|
            && forall k :: 0 <= k < |c.peers| ==> BuildPeer(st.peers[k]) == Ok(c.peers[k])
  {
    var built := BuildPeers(st.peers);
    if built.Ok? && BuildIface(st.iface).Ok? {
      ValidateIff(WgConfig(BuildIface(st.iface).value, built.value));
      assert forall k :: 0 <= k < |st.peers| ==> BuildPeer(st.peers[k]) == Ok(built.value[k]);
    }
    hide Validate, BuildPeers;
  }

  // ---- Errors name the offending line ----

  /** A parse error names the first line that cannot be read, counting from one. */
  lemma {:induction false} ErrorNamesFirstBadLine(st: ParseState, lines: seq<string>, done: nat)
    requires Reachable(st) && ParseLines(st, lines, done).Err?
    ensures var e := ParseLines(st, lines, done).error;
            && e.WgQuickParse? && done < e.line <= done + |lines|
            && ParseLines(st, lines[..e.line - done - 1], done).Ok?
            && ParseLine(ParseLines(st, lines[..e.line - done - 1], done).value, lines[e.line - done - 1]) == Err(e.reason)
    decreases |lines|
  {
    hide ParseLine;
    if ParseLine(st, lines[0]).Ok? {
      var next := ParseLine(st, lines[0]).value;
      ErrorNamesFirstBadLine(next, lines[1..], done + 1);
      var n := ParseLines(st, lines, done).error.line - done - 1;
      assert lines[..n][0] == lines[0] && lines[..n][1..] == lines[1..][..n - 1];
    } else {
      assert lines[..0] == [];
    }
  }

  // ---- Comments and blank lines ----

  /** The outcome without the line number of an error. */
  function Unnumbered<T>(r: Result<T, ConfigError>): Result<T, ConfigError> {
    match r
    case Ok(_) => r
    case Err(WgQuickParse(_, reason)) => Err(WgQuickParse(0, reason))
    case Err(_) => r
  }

  lemma {:induction false} NumbersAside(st: ParseState, lines: seq<string>, m: nat, n: nat)
    requires Reachable(st)
    ensures Unnumbered(ParseLines(st, lines, m)) == Unnumbered(ParseLines(st, lines, n))
    decreases |lines|
  {
    hide ParseLine;
    if lines != [] && ParseLine(st, lines[0]).Ok? {
      NumbersAside(ParseLine(st, lines[0]).value, lines[1..], m + 1, n + 1);
    }
  }

  lemma SkippedLineFirst(st: ParseState, raw: string, b: seq<string>, done: nat)
    requires Reachable(st) && Ignored(Trim(raw))
    ensures Unnumbered(ParseLines(st, [raw] + b, done)) == Unnumbered(ParseLines(st, b, done))
  {
    LineKinds(Trim(raw));
    SkippedLine(st, raw);
    hide ParseLine, Ignored, Trim;
    assert ([raw] + b)[0] == raw && ([raw] + b)[1..] == b;
    NumbersAside(st, b, done + 1, done);
  }

  lemma SkippedLineInserted(st: ParseState, a: seq<string>, raw: string, b: seq<string>)
    requires Reachable(st) && Ignored(Trim(raw))
    ensures Unnumbered(ParseLines(st, a + [raw] + b, 0)) == Unnumbered(ParseLines(st, a + b, 0))
  {
    hide ParseLines, Ignored, Trim;
    ConcatAssoc(a, [raw], b);
    ParseLinesAppend(st, a, [raw] + b, 0);
    ParseLinesAppend(st, a, b, 0);
    if ParseLines(st, a, 0).Ok? {
      SkippedLineFirst(ParseLines(st, a, 0).value, raw, b, |a|);
    }
  }

  /** A blank or comment line inserted before any line of a text, or after its last newline, changes nothing
      but the line numbers in error messages. */
  lemma CommentsDoNotMatter(before: string, comment: string, after: string)
    requires AtLineStart(before) && Lacks(comment, '\n') && Ignored(Trim(comment))
    ensures Unnumbered(Load(before + comment + "\n" + after)) == Unnumbered(Load(before + after))
  {
    TrimOfStripCr(comment);
    hide Trim, Ignored, StripCr, Finish, ParseLines, Lines;
    ConcatAssoc(before, comment + "\n", after);
    ConcatAssoc(before, comment, "\n");
    LinesAppend(before, comment + "\n" + after);
    LinesCons(comment, after);
    LinesAppend(before, after);
    ConcatAssoc(Lines(before), [StripCr(comment)], Lines(after));
    SkippedLineInserted(START, Lines(before), StripCr(comment), Lines(after));
  }

  lemma TrimOfStripCr(s: string)
    ensures Trim(StripCr(s)) == Trim(s)
  {
    hide Trim, IsWhite;
    if StripCr(s) != s {
      var init := s[..|s| - 1];
      assert s == init + ['\r'];
      CrIsWhite();
      TrimTail(init, '\r');
    }
  }

  lemma CrIsWhite()
    ensures IsWhite('\r')
  {
  }

  lemma LastLine(s: string)
    requires s != "" && Lacks(s, '\n')
    ensures Lines(s) == [s]
  {
    FirstNone(s, '\n');
  }

  /** The part of a text before its last line, which has no newline at its end. */
  lemma SplitLastLine(s: string) returns (init: string, last: string)
    requires !AtLineStart(s)
    ensures s == init + last && AtLineStart(init) && last != "" && Lacks(last, '\n')
  {
    var n := |s| - 1;
    while n > 0 && s[n - 1] != '\n'
      invariant 0 <= n < |s| && Lacks(s[n..], '\n')
    {
      n := n - 1;
    }
    init, last := s[..n], s[n..];
  }

  lemma LineByTrim(st: ParseState, a: string, b: string)
    requires Reachable(st) && Trim(a) == Trim(b)
    ensures ParseLine(st, a) == ParseLine(st, b)
  {
    hide Trim, Skipped, IsInterfaceHeader, IsPeerHeader, KeyValueLine;
  }

  lemma LastLineByTrim(lines: seq<string>, a: string, b: string)
    requires Trim(a) == Trim(b)
    ensures ParseLines(START, lines + [a], 0) == ParseLines(START, lines + [b], 0)
  {
    hide Trim, ParseLine;
    ParseLinesAppend(START, lines, [a], 0);
    ParseLinesAppend(START, lines, [b], 0);
    if ParseLines(START, lines, 0).Ok? {
      LineByTrim(ParseLines(START, lines, 0).value, a, b);
      assert [a][1..] == [] && [b][1..] == [];
    }
  }

  /** A newline after the last line is optional. */
  lemma FinalNewline(s: string)
    requires !AtLineStart(s)
    ensures Load(s + "\n") == Load(s)
  {
    var init, last := SplitLastLine(s);
    hide ParseLines, Finish, AtLineStart, StripCr, Trim, Lines;
    LinesAppend(init, last);
    LastLine(last);
    ConcatAssoc(init, last, "\n");
    LinesAppend(init, last + "\n");
    assert last + "\n" + "" == last + "\n";
    LinesCons(last, "");
    EmptyText();
    assert [StripCr(last)] + [] == [StripCr(last)];
    TrimOfStripCr(last);
    LastLineByTrim(Lines(init), StripCr(last), last);
  }

  lemma EmptyText()
    ensures Lines("") == []
  {
  }

  /** The same at the end of a text: a blank or comment line may be the last one, without a newline of its
      own, whether or not the text before it ends in one. */
  lemma CommentsDoNotMatterAtTheEnd(before: string, comment: string)
    requires Lacks(comment, '\n') && Ignored(Trim(comment))
    ensures AtLineStart(before) ==> Unnumbered(Load(before + comment)) == Unnumbered(Load(before))
    ensures Unnumbered(Load(before + "\n" + comment)) == Unnumbered(Load(before))
    ensures Unnumbered(Load(before + "\n" + comment + "\n")) == Unnumbered(Load(before))
  {
    hide Load, Unnumbered, Trim, Ignored, Lines;
    if AtLineStart(before) {
      UnendedComment(before, comment);
    }
    UnendedComment(before + "\n", comment);
    NewlineAtTheEnd(before);
    CommentsDoNotMatter(before + "\n", comment, "");
    assert before + "\n" + comment + "\n" + "" == before + "\n" + comment + "\n" && before + "\n" + "" == before + "\n";
  }

  lemma NewlineAtTheEnd(before: string)
    ensures Unnumbered(Load(before + "\n")) == Unnumbered(Load(before))
  {
    if AtLineStart(before) {
      assert Ignored(Trim(""));
      hide Load, Unnumbered;
      CommentsDoNotMatter(before, "", "");
      assert before + "" + "\n" + "" == before + "\n" && before + "" == before;
    } else {
      hide Load, Unnumbered;
      FinalNewline(before);
    }
  }

  lemma UnendedComment(before: string, comment: string)
    requires AtLineStart(before) && Lacks(comment, '\n') && Ignored(Trim(comment))
    ensures Unnumbered(Load(before + comment)) == Unnumbered(Load(before))
  {
    hide Load, Unnumbered, Trim, Ignored, Lacks;
    if comment == "" {
      assert before + comment == before;
    } else {
      EndsInside(before, comment);
      FinalNewline(before + comment);
      CommentsDoNotMatter(before, comment, "");
      assert before + comment + "\n" + "" == before + comment + "\n" && before + "" == before;
    }
  }

  lemma EndsInside(before: string, comment: string)
    requires comment != "" && Lacks(comment, '\n')
    ensures !AtLineStart(before + comment)
  {
    assert (before + comment)[|before + comment| - 1] == comment[|comment| - 1];
  }
}

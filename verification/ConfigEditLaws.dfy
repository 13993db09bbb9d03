/** What the validators and the writer promise about each other. */
module ConfigEditLaws {
  import opened Wrappers
  import opened Text
  import opened Decimal
  import opened IpAddress
  import opened Base64Key
  import opened Config
  import opened ConfigEdit

  // ---- Validator and writer agree ----

  /** The number a field holds after an accepted commit is the number the validator saw: the fallback to
      zero is taken on the empty text only. */
  predicate NumberWritten(value: string, max: nat, n: nat) {
    if value == "" then n == 0 else ParseUInt(value, max) == Some(n)
  }

  lemma AcceptedNumbersAreWritten(field: EditableField, value: string, draft: WgConfig, section: ConfigSection)
    requires ValidateField(field, value, draft, section).Ok?
    ensures var d := ApplyField(field, value, draft, section);
            && (field == ListenPort ==> NumberWritten(value, U32_MAX, d.iface.listenPort))
            && (field == Mtu ==> NumberWritten(value, U16_MAX, d.iface.mtu))
            && (field == Fwmark ==> NumberWritten(value, U32_MAX, d.iface.fwmark))
            && (field == PeerPersistentKeepalive && NamesPeer(section, draft) ==>
                  NumberWritten(value, U32_MAX, d.peers[section.idx].persistentKeepalive))
  {
    WideParseAgrees(value, U32_MAX, U16_MAX);
    hide ParseUInt;
  }

  lemma {:induction false} ParseIpsComplete(tokens: seq<string>)
    requires forall t :: t in tokens ==> ParseIp(t).Some?
    ensures |ParseIps(tokens)| == |tokens|
    ensures forall i :: 0 <= i < |tokens| ==> ParseIp(tokens[i]) == Some(ParseIps(tokens)[i])
  {
    if tokens == [] {
    } else {
      assert tokens[0] in tokens;
      ParseIpsComplete(tokens[1..]);
    }
  }

  /** No DNS server typed by the user is dropped: an accepted list is written token by token. */
  lemma AcceptedDnsIsWritten(value: string, draft: WgConfig, section: ConfigSection)
    requires ValidateField(Dns, value, draft, section).Ok?
    ensures var dns := ApplyField(Dns, value, draft, section).iface.dns;
            && |dns| == |ParseCommaList(value)|
            && forall i :: 0 <= i < |dns| ==> ParseIp(ParseCommaList(value)[i]) == Some(dns[i])
  {
    hide ParseIp, ParseCommaList;
    ParseIpsComplete(ParseCommaList(value));
  }

  /** An accepted public key decodes, to the 32 bytes that are written. */
  lemma AcceptedKeyDecodes(value: string)
    requires ValidatePublicKey(value).Ok?
    ensures FromBase64(value).Some? && Decode(value) == Some(FromBase64(value).value)
  {
    DecodableTrimmed(value);
  }

  // ---- Allowed IPs stay unique ----

  predicate AllDistinct(items: seq<string>) {
    forall a, b :: 0 <= a < b < |items| ==> items[a] != items[b]
  }

  lemma {:induction false} AllowedIpsFaultNone(cidrs: seq<string>, others: seq<string>, seen: set<string>)
    ensures AllowedIpsFault(cidrs, others, seen).None? <==>
            && (forall t :: t in cidrs ==> IsValidCidr(t) && t !in others && t !in seen)
            && AllDistinct(cidrs)
    decreases |cidrs|
  {
    hide IsValidCidr;
    if cidrs == [] {
    } else {
      var x, rest := cidrs[0], cidrs[1..];
      AllowedIpsFaultNone(rest, others, seen + {x});
      assert cidrs == [x] + rest;
      assert AllDistinct(cidrs) <==> AllDistinct(rest) && x !in rest by {
        if AllDistinct(rest) && x !in rest {
          assert forall b :: 0 < b < |cidrs| ==> cidrs[b] == rest[b - 1];
        }
        if AllDistinct(cidrs) {
          assert forall b :: 0 <= b < |rest| ==> rest[b] == cidrs[b + 1];
        }
      }
    }
  }

  /** The validator accepts exactly the lists of valid ranges without repeats, none of them held by
      another peer; and the tokens it looks at are the ones `apply_field` writes. */
  lemma ValidateAllowedIpsIff(value: string, draft: WgConfig, section: ConfigSection)
    ensures ValidateField(PeerAllowedIps, value, draft, section).Ok? <==>
            var items := ApplyPeerField(PeerAllowedIps, value, PeerConfig("", ZeroKey(), None, None, [], 0)).allowedIps;
            && AllDistinct(items)
            && (forall t :: t in items ==> IsValidCidr(t))
            && (forall t, i :: t in items && 0 <= i < |draft.peers| && section != Peer(i) ==>
                  t !in draft.peers[i].allowedIps)
  {
    hide IsValidCidr, ParseCommaList;
    AllowedIpsFaultNone(ParseCommaList(value), OtherIps(draft.peers, section, 0), {});
  }

  /** No allowed-IP string occurs twice, within a peer or across peers. */
  predicate UniqueIps(peers: seq<PeerConfig>) {
    && (forall i :: 0 <= i < |peers| ==> AllDistinct(peers[i].allowedIps))
    && forall i, j, t :: 0 <= i < j < |peers| && t in peers[i].allowedIps ==> t !in peers[j].allowedIps
  }

  lemma CommitKeepsUniqueIps(field: EditableField, value: string, draft: WgConfig, section: ConfigSection)
    requires UniqueIps(draft.peers) && ValidateField(field, value, draft, section).Ok?
    ensures UniqueIps(ApplyField(field, value, draft, section).peers)
  {
    if NamesPeer(section, draft) {
      if field == PeerAllowedIps {
        ValidateAllowedIpsIff(value, draft, section);
      }
      hide AllDistinct, IsValidCidr, ParseCommaList, ParseOrZero, ValidateField, ApplyIfaceField;
      var p := ApplyPeerField(field, value, draft.peers[section.idx]);
      assert field != PeerAllowedIps ==> p.allowedIps == draft.peers[section.idx].allowedIps;
    }
  }

  lemma RemoveKeepsUniqueIps(peers: seq<PeerConfig>, i: nat)
    requires UniqueIps(peers) && i < |peers|
    ensures UniqueIps(peers[..i] + peers[i + 1..])
  {
    hide AllDistinct;
  }

  lemma AddKeepsUniqueIps(peers: seq<PeerConfig>, p: PeerConfig)
    requires UniqueIps(peers) && p.allowedIps == []
    ensures UniqueIps(peers + [p])
  {
  }

  // ---- Opening a field and committing it unchanged ----

  /** A list item that survives joining and re-reading. */
  predicate EditItem(t: string) {
    t != "" && Token(t, ',')
  }

  lemma {:induction false} NonEmptyId(items: seq<string>)
    requires forall t :: t in items ==> t != ""
    ensures NonEmpty(items) == items
  {
    if items == [] {
    } else {
      assert forall t :: t in items[1..] ==> t in items;
      assert items[0] in items;
      NonEmptyId(items[1..]);
    }
  }

  /** A comma list re-reads as itself exactly when its items are non-empty, trimmed and comma-free. */
  lemma ReadBackIff(items: seq<string>)
    ensures ParseCommaList(Join(items, ", ")) == items <==> forall t :: t in items ==> EditItem(t)
  {
    hide Join, SplitTrim;
    if forall t :: t in items ==> EditItem(t) {
      if items == [] {
        EmptyList();
      } else {
        SplitTrimOfJoin(items);
        NonEmptyId(items);
      }
    }
    SplitTrimTokens(Join(items, ", "), ',');
  }

  lemma EmptyList()
    ensures ParseCommaList(Join([], ", ")) == []
  {
    SplitLone("", ',');
    assert SplitTrim("", ',') == [""];
    assert [""][1..] == [];
  }

  lemma NumberReadBack(n: nat, max: nat)
    requires n <= max
    ensures ParseOrZero(ShowOrEmpty(n), max) == n
  {
    ParseOfShow(n, max);
  }

  lemma {:induction false} ParseIpsOfShow(ips: seq<IpAddr>)
    ensures ParseIps(ShowIps(ips)) == ips
  {
    hide ParseIp, ShowIp;
    if ips == [] {
    } else {
      ParseIpOfShow(ips[0]);
      ParseIpsOfShow(ips[1..]);
      assert ShowIps(ips)[1..] == ShowIps(ips[1..]);
    }
  }

  lemma DnsReadBack(ips: seq<IpAddr>)
    ensures ParseIps(ParseCommaList(Join(ShowIps(ips), ", "))) == ips
  {
    forall t | t in ShowIps(ips)
      ensures EditItem(t)
    {
      var k :| 0 <= k < |ips| && t == ShowIp(ips[k]);
      ShowIpClean(ips[k]);
    }
    hide EditItem, ParseCommaList, Join, ParseIps, ShowIps;
    ReadBackIff(ShowIps(ips));
    ParseIpsOfShow(ips);
  }

  predicate EditItems(items: seq<string>) {
    forall t :: t in items ==> EditItem(t)
  }

  /** The values a form field can show and take back. */
  predicate Reopenable(field: EditableField, section: ConfigSection, c: WgConfig) {
    match field
    case Addresses => EditItems(c.iface.addresses)
    case DnsSearch => EditItems(c.iface.dnsSearch)
    case PreUp => EditItems(c.iface.preUp)
    case PostUp => EditItems(c.iface.postUp)
    case PreDown => EditItems(c.iface.preDown)
    case PostDown => EditItems(c.iface.postDown)
    case PeerAllowedIps => NamesPeer(section, c) ==> EditItems(c.peers[section.idx].allowedIps)
    case PeerEndpoint => NamesPeer(section, c) ==> c.peers[section.idx].endpoint != Some("")
    case _ => true
  }

  lemma IfaceReopenIff(field: EditableField, section: ConfigSection, c: WgConfig)
    ensures field !in PEER_FIELDS_NEW ==>
              (ApplyIfaceField(field, FieldCurrentValue(field, section, c), c.iface) == c.iface
               <==> Reopenable(field, section, c))
    ensures field in PEER_FIELDS_NEW ==> forall v :: ApplyIfaceField(field, v, c.iface) == c.iface
  {
    hide ParseCommaList, Join, EditItem, ParseOrZero, ShowOrEmpty, ParseIps, ShowIps;
    var i := c.iface;
    match field
    case ListenPort => NumberReadBack(i.listenPort, U16_MAX);
    case Mtu => NumberReadBack(i.mtu, U16_MAX);
    case Fwmark => NumberReadBack(i.fwmark, U32_MAX);
    case Dns => DnsReadBack(i.dns);
    case Addresses => ReadBackIff(i.addresses);
    case DnsSearch => ReadBackIff(i.dnsSearch);
    case PreUp => ReadBackIff(i.preUp);
    case PostUp => ReadBackIff(i.postUp);
    case PreDown => ReadBackIff(i.preDown);
    case PostDown => ReadBackIff(i.postDown);
    case _ =>
  }

  lemma PeerReopenIff(field: EditableField, section: ConfigSection, c: WgConfig)
    requires NamesPeer(section, c)
    ensures var p := c.peers[section.idx];
            && (field in PEER_FIELDS_NEW ==>
                  (ApplyPeerField(field, PeerFieldValue(field, p), p) == p <==> Reopenable(field, section, c)))
            && (field !in PEER_FIELDS_NEW ==> forall v :: ApplyPeerField(field, v, p) == p)
  {
    hide ParseCommaList, Join, EditItem, ParseOrZero, ShowOrEmpty, ToBase64;
    var p := c.peers[section.idx];
    ReadBackIff(p.allowedIps);
    NumberReadBack(p.persistentKeepalive, U16_MAX);
  }

  /** Opening a field and committing it unchanged is the identity on the draft exactly when the value is
      one the form can show: list items non-empty, trimmed and comma-free, endpoint not the empty text. */
  lemma ReopenIff(field: EditableField, section: ConfigSection, c: WgConfig)
    ensures ApplyField(field, FieldCurrentValue(field, section, c), c, section) == c <==> Reopenable(field, section, c)
  {
    IfaceReopenIff(field, section, c);
    if NamesPeer(section, c) {
      PeerReopenIff(field, section, c);
    }
    hide ApplyIfaceField, ApplyPeerField, PeerFieldValue, EditItems, ShowOrEmpty, Join;
    if NamesPeer(section, c) {
      var v := FieldCurrentValue(field, section, c);
      var p := c.peers[section.idx];
      var q := ApplyPeerField(field, v, p);
      assert c.peers[section.idx := q] == c.peers <==> q == p;
    }
  }
}

/** Exactly what the validators of the edit form accept, and which error they report otherwise. */
module ValidatorLaws {
  import opened Wrappers
  import opened Text
  import opened Decimal
  import opened IpAddress
  import opened Base64Key
  import opened Config
  import opened ConfigEdit
  import opened ConfigEditLaws

  // ---- Numbers and free text ----

  /** Ports and keepalives are accepted when they fit 16 bits; a larger 32-bit number is too high, and
      anything else is not a number. */
  lemma PortFields(field: EditableField, value: string, draft: WgConfig, section: ConfigSection)
    requires field == ListenPort || field == PeerPersistentKeepalive
    ensures ValidateField(field, value, draft, section) ==
            if value == "" || ParseUInt(value, U16_MAX).Some? then Ok(())
            else if ParseUInt(value, U32_MAX).Some?
            then Err(if field == ListenPort then PortTooHigh else KeepaliveTooHigh)
            else Err(if field == ListenPort then PortNotNumeric else KeepaliveNotNumeric)
  {
    WideParseAgrees(value, U32_MAX, U16_MAX);
    hide ParseUInt;
  }

  /** A printed number is read back exactly when it fits. */
  lemma ShownNumber(n: nat, max: nat)
    ensures ParseUInt(ShowNat(n), max) == if n <= max then Some(n) else None
  {
    DecValueOfShow(n);
    assert IsDigit(ShowNat(n)[0]) && ShowNat(n)[0] != '+';
    hide ShowNat, DecValue;
  }

  /** A decimal number is a valid MTU when it is 0 or between 576 and 9000, and a valid mark when it fits 32 bits. */
  lemma NumbersInRange(n: nat, draft: WgConfig, section: ConfigSection)
    ensures ValidateField(Mtu, ShowNat(n), draft, section) ==
            if n == 0 || 576 <= n <= 9000 then Ok(())
            else if n <= 65535 then Err(MtuOutOfRange) else Err(MtuNotNumeric)
    ensures ValidateField(Fwmark, ShowNat(n), draft, section) == if n <= 4294967295 then Ok(()) else Err(FwmarkNotNumeric)
    ensures ValidateField(ListenPort, ShowNat(n), draft, section) ==
            if n <= 65535 then Ok(()) else if n <= 4294967295 then Err(PortTooHigh) else Err(PortNotNumeric)
  {
    ShownNumber(n, U16_MAX);
    ShownNumber(n, U32_MAX);
    hide ShowNat, ParseUInt;
  }

  /** A text that is no number is refused for every number field, except the empty one. */
  lemma NoNumber(value: string, draft: WgConfig, section: ConfigSection)
    requires ParseUInt(value, U32_MAX).None?
    ensures ValidateField(Mtu, value, draft, section) == if value == "" then Ok(()) else Err(MtuNotNumeric)
    ensures ValidateField(Fwmark, value, draft, section) == if value == "" then Ok(()) else Err(FwmarkNotNumeric)
  {
    WideParseAgrees(value, U32_MAX, U16_MAX);
    hide ParseUInt;
  }

  /** Hook lists and peer names are taken as typed. */
  lemma FreeTextFields(field: EditableField, value: string, draft: WgConfig, section: ConfigSection)
    requires field in {PreUp, PostUp, PreDown, PostDown, PeerName}
    ensures ValidateField(field, value, draft, section).Ok?
  {
  }

  // ---- Lists ----

  /** The first item that fails, and everything before it. */
  predicate FailsFirst(items: seq<string>, ok: string -> bool, i: nat) {
    i < |items| && !ok(items[i]) && forall j :: 0 <= j < i ==> ok(items[j])
  }

  lemma {:induction false} FirstFailingIsFirst(items: seq<string>, ok: string -> bool)
    ensures FirstFailing(items, ok).Some? ==>
              exists i: nat :: FailsFirst(items, ok, i) && items[i] == FirstFailing(items, ok).value
  {
    if items == [] {
    } else if !ok(items[0]) {
      assert FailsFirst(items, ok, 0);
    } else {
      FirstFailingIsFirst(items[1..], ok);
      if FirstFailing(items, ok).Some? {
        var i: nat :| FailsFirst(items[1..], ok, i) && items[1..][i] == FirstFailing(items[1..], ok).value;
        assert forall j :: 1 <= j < i + 1 ==> items[j] == items[1..][j - 1];
        assert FailsFirst(items, ok, i + 1);
      }
    }
  }

  /** What one token of a list field must be. */
  function TokenRule(field: EditableField): string -> bool {
    match field
    case Addresses => IsValidCidr
    case Dns => t => ParseIp(t).Some?
    case _ => IsValidDomain
  }

  function TokenError(field: EditableField, token: string): EditError {
    match field
    case Addresses => InvalidCidr(token)
    case Dns => InvalidIp(token)
    case _ => InvalidDomain(token)
  }

  /** A list is accepted when each of its tokens is; otherwise the error names the first one that is not. */
  lemma ListFields(field: EditableField, value: string, draft: WgConfig, section: ConfigSection)
    requires field in {Addresses, Dns, DnsSearch}
    ensures var r, tokens := ValidateField(field, value, draft, section), ParseCommaList(value);
            && (r.Ok? <==> forall t :: t in tokens ==> TokenRule(field)(t))
            && (r.Err? ==> exists i: nat :: FailsFirst(tokens, TokenRule(field), i) && r == Err(TokenError(field, tokens[i])))
  {
    hide ParseCommaList, IsValidCidr, IsValidDomain, ParseIp;
    var tokens := ParseCommaList(value);
    match field
    case Addresses => FirstFailingIsFirst(tokens, IsValidCidr);
    case Dns => ListOfIps(tokens);
    case DnsSearch => FirstFailingIsFirst(tokens, IsValidDomain);
  }

  lemma ListOfIps(tokens: seq<string>)
    ensures FirstFailing(tokens, t => ParseIp(t).Some?).Some? ==>
              exists i: nat :: FailsFirst(tokens, TokenRule(Dns), i)
                               && tokens[i] == FirstFailing(tokens, t => ParseIp(t).Some?).value
  {
    var ok := t => ParseIp(t).Some?;
    FirstFailingIsFirst(tokens, ok);
    if FirstFailing(tokens, ok).Some? {
      var i: nat :| FailsFirst(tokens, ok, i) && tokens[i] == FirstFailing(tokens, ok).value;
      assert FailsFirst(tokens, TokenRule(Dns), i);
    }
  }

  // ---- Texts of two parts ----

  /** A text cut at its only separator. */
  predicate TwoParts(s: string, c: char, a: string, b: string) {
    s == a + [c] + b && Lacks(a, c) && Lacks(b, c)
  }

  lemma SplitInTwo(s: string, c: char)
    ensures |Split(s, c)| == 2 ==> TwoParts(s, c, Split(s, c)[0], Split(s, c)[1])
  {
    SplitParts(s, c);
    var n := First(s, c);
    if |Split(s, c)| == 2 {
      var b := s[n + 1..];
      assert Split(s, c) == [s[..n]] + Split(b, c);
      assert First(b, c) == |b|;
      assert s == s[..n] + [c] + b;
    }
  }

  lemma TwoPartsSplit(s: string, c: char, a: string, b: string)
    requires TwoParts(s, c, a, b)
    ensures Split(s, c) == [a, b]
  {
    SplitCons(a, c, b);
    SplitLone(b, c);
  }

  /** An endpoint is empty, or a non-empty host and a 16-bit port around the only colon; the error says which
      of the three is missing. */
  lemma EndpointIff(value: string, draft: WgConfig, section: ConfigSection)
    ensures var r := ValidateField(PeerEndpoint, value, draft, section);
            && (r.Ok? <==> value == "" || exists host, port ::
                  TwoParts(value, ':', host, port) && host != "" && ParseUInt(port, U16_MAX).Some?)
            && (r == Err(EndpointFormat) <==> value != "" && !exists host, port :: TwoParts(value, ':', host, port))
            && (r == Err(EndpointHostEmpty) <==> exists port :: TwoParts(value, ':', "", port))
  {
    SplitInTwo(value, ':');
    forall host, port | TwoParts(value, ':', host, port)
      ensures Split(value, ':') == [host, port]
    {
      TwoPartsSplit(value, ':', host, port);
    }
    hide Split, ParseUInt, TwoParts;
    if TwoParts(value, ':', "", "") {
      assert value != "" by { SeparatorInside(value, ':', "", ""); }
    }
    assert forall host, port :: TwoParts(value, ':', host, port) ==> value != "" by {
      forall host, port | TwoParts(value, ':', host, port)
        ensures value != ""
      {
        SeparatorInside(value, ':', host, port);
      }
    }
  }

  lemma SeparatorInside(s: string, c: char, a: string, b: string)
    requires TwoParts(s, c, a, b)
    ensures s != ""
  {
    assert s[|a|] == c;
  }

  predicate CidrOf(t: string, ip: string, prefix: string) {
    && TwoParts(t, '/', ip, prefix)
    && ParseIp(ip).Some? && ParseUInt(prefix, U8_MAX).Some?
    && ParseUInt(prefix, U8_MAX).value <= (if ParseIp(ip).value.V4? then 32 else 128)
  }

  /** A range is an address and a prefix length around the only slash. */
  lemma CidrIff(t: string)
    ensures IsValidCidr(t) <==> exists ip, prefix :: CidrOf(t, ip, prefix)
  {
    SplitInTwo(t, '/');
    hide ParseIp, ParseUInt, Split, TwoParts;
    if IsValidCidr(t) {
      assert CidrOf(t, Split(t, '/')[0], Split(t, '/')[1]);
    }
    forall ip, prefix | CidrOf(t, ip, prefix)
      ensures IsValidCidr(t)
    {
      TwoPartsSplit(t, '/', ip, prefix);
    }
  }

  lemma SlashFree(ip: IpAddr, n: nat)
    ensures Lacks(ShowIp(ip), '/') && Lacks(ShowNat(n), '/')
  {
    hide ShowIp, ShowNat, Trimmed;
    ShowIpClean(ip);
    ShowNatClean(n);
  }

  /** A printed address with a prefix length is a range exactly when the length fits the address. */
  lemma PrintedCidr(ip: IpAddr, n: nat)
    ensures IsValidCidr(ShowIp(ip) + "/" + ShowNat(n)) <==> n <= if ip.V4? then 32 else 128
  {
    hide ShowIp, ShowNat, ParseIp, ParseUInt, Split, Lacks;
    SlashFree(ip, n);
    ParseIpOfShow(ip);
    ShownNumber(n, U8_MAX);
    TwoPartsSplit(ShowIp(ip) + "/" + ShowNat(n), '/', ShowIp(ip), ShowNat(n));
  }

  /** Search domains: letters and digits at both ends, dots and hyphens inside. */
  lemma DomainExamples()
    ensures IsValidDomain("a") && IsValidDomain("x-1.b") && !IsValidDomain("") && !IsValidDomain("-a")
    ensures !IsValidDomain("a.") && !IsValidDomain("a b") && !IsValidDomain("a_b")
  {
    assert "-a"[0] == '-' && "a."[1] == '.' && "a b"[1] == ' ' && "a_b"[1] == '_';
  }

  // ---- Public keys ----

  lemma CharBack(c: char)
    requires CharSextet(c).Some?
    ensures SextetChar(CharSextet(c).value) == c && c < '\U{80}'
  {
  }

  /** One group of four characters is the text of its bytes. */
  lemma QuadBack(q: string, last: bool)
    requires |q| == 4 && DecodeQuad(q, last).Some?
    ensures var b := DecodeQuad(q, last).value;
            && 1 <= |b| <= 3
            && (if |b| == 3 then q == EncodeGroup(b[0], b[1], b[2]) else last && q == EncodeRest(b))
            && forall i :: 0 <= i < 4 ==> q[i] < '\U{80}'
  {
    hide EncodeGroup, EncodeRest, CharSextet;
    assert CharSextet('=') == None by { NoPadding(); }
    assert q == [q[0], q[1], q[2], q[3]];
    if CharSextet(q[2]).None? {
      OneByteBack(q[0], q[1]);
    } else if CharSextet(q[3]).None? {
      TwoBytesBack(q[0], q[1], q[2]);
    } else {
      ThreeBytesBack(q[0], q[1], q[2], q[3]);
    }
  }

  lemma NoPadding()
    ensures CharSextet('=') == None
  {
  }

  lemma OneByteBack(c: char, d: char)
    requires CharSextet(c).Some? && CharSextet(d).Some? && CharSextet(d).value % 16 == 0
    ensures var w, x := CharSextet(c).value, CharSextet(d).value; EncodeRest([w * 4 + x / 16]) == [c, d, '=', '=']
    ensures c < '\U{80}' && d < '\U{80}'
  {
    CharBack(c);
    CharBack(d);
    hide SextetChar, CharSextet;
  }

  lemma RestOfSextets(w: Sextet, x: Sextet, y: Sextet)
    requires y % 4 == 0
    ensures EncodeRest([w * 4 + x / 16, x % 16 * 16 + y / 4]) == [SextetChar(w), SextetChar(x), SextetChar(y), '=']
  {
    var a, b := w * 4 + x / 16, x % 16 * 16 + y / 4;
    assert a / 4 == w && a % 4 == x / 16;
    assert b / 16 == x % 16 && b % 16 == y / 4;
    hide SextetChar;
  }

  lemma TwoBytesBack(c: char, d: char, e: char)
    requires CharSextet(c).Some? && CharSextet(d).Some? && CharSextet(e).Some? && CharSextet(e).value % 4 == 0
    ensures var w, x, y := CharSextet(c).value, CharSextet(d).value, CharSextet(e).value;
            EncodeRest([w * 4 + x / 16, x % 16 * 16 + y / 4]) == [c, d, e, '=']
    ensures c < '\U{80}' && d < '\U{80}' && e < '\U{80}'
  {
    CharBack(c);
    CharBack(d);
    CharBack(e);
    hide SextetChar, CharSextet, EncodeRest;
    RestOfSextets(CharSextet(c).value, CharSextet(d).value, CharSextet(e).value);
  }

  /** Three bytes put together from four sextets are cut into them again. */
  lemma GroupOfSextets(w: Sextet, x: Sextet, y: Sextet, z: Sextet)
    ensures EncodeGroup(w * 4 + x / 16, x % 16 * 16 + y / 4, y % 4 * 64 + z)
            == [SextetChar(w), SextetChar(x), SextetChar(y), SextetChar(z)]
  {
    var a, b, c := w * 4 + x / 16, x % 16 * 16 + y / 4, y % 4 * 64 + z;
    assert a / 4 == w && a % 4 == x / 16;
    assert b / 16 == x % 16 && b % 16 == y / 4;
    assert c / 64 == y % 4 && c % 64 == z;
    hide SextetChar;
  }

  lemma ThreeBytesBack(c: char, d: char, e: char, f: char)
    requires CharSextet(c).Some? && CharSextet(d).Some? && CharSextet(e).Some? && CharSextet(f).Some?
    ensures var w, x, y, z := CharSextet(c).value, CharSextet(d).value, CharSextet(e).value, CharSextet(f).value;
            EncodeGroup(w * 4 + x / 16, x % 16 * 16 + y / 4, y % 4 * 64 + z) == [c, d, e, f]
    ensures c < '\U{80}' && d < '\U{80}' && e < '\U{80}' && f < '\U{80}'
  {
    CharBack(c);
    CharBack(d);
    CharBack(e);
    CharBack(f);
    hide SextetChar, CharSextet, EncodeGroup;
    GroupOfSextets(CharSextet(c).value, CharSextet(d).value, CharSextet(e).value, CharSextet(f).value);
  }

  /** Decoding accepts only the text the bytes encode to. */
  lemma {:induction false} EncodeOfDecode(s: string)
    requires Decode(s).Some?
    ensures Encode(Decode(s).value) == s
    ensures forall i :: 0 <= i < |s| ==> s[i] < '\U{80}'
  {
    if s == "" {
    } else {
      var head, tail := DecodeQuad(s[..4], |s| == 4).value, Decode(s[4..]).value;
      QuadBack(s[..4], |s| == 4);
      EncodeOfDecode(s[4..]);
      hide DecodeQuad;
      assert s == s[..4] + s[4..];
      assert forall i :: 4 <= i < |s| ==> s[i] == s[4..][i - 4];
      if |head| < 3 {
        assert s[4..] == "" && tail == [] && head + tail == head;
      } else {
        assert (head + tail)[3..] == tail && (head + tail)[0] == head[0] && (head + tail)[1] == head[1];
        assert (head + tail)[2] == head[2];
      }
    }
  }

  lemma {:induction false} Utf8OfAscii(s: string)
    requires forall i :: 0 <= i < |s| ==> s[i] < '\U{80}'
    ensures Utf8Len(s) == |s|
  {
    if s == "" {
    } else {
      Utf8OfAscii(s[1..]);
    }
  }

  lemma {:induction false} EncodedLength(b: seq<Byte>)
    ensures |Encode(b)| == (|b| + 2) / 3 * 4
  {
    hide EncodeGroup, EncodeRest;
    if |b| < 3 {
    } else {
      var rest := b[3..];
      EncodedLength(rest);
      assert (|b| + 2) / 3 == (|rest| + 2) / 3 + 1;
    }
  }

  lemma KeyTextAccepted(k: Key)
    ensures ValidatePublicKey(ToBase64(k)).Ok?
  {
    DecodeOfEncode(k);
    EncodeOfDecode(ToBase64(k));
    EncodedLength(k);
    Utf8OfAscii(ToBase64(k));
    hide Decode, Encode, Utf8Len;
  }

  lemma AcceptedIsKeyText(value: string)
    requires ValidatePublicKey(value).Ok?
    ensures exists k: Key :: value == ToBase64(k)
  {
    EncodeOfDecode(value);
    hide Decode, Encode;
    var k: Key := Decode(value).value;
    assert value == ToBase64(k);
  }

  /** A public key is accepted exactly when it is the text of a key. */
  lemma PublicKeyIff(value: string, draft: WgConfig, section: ConfigSection)
    ensures var r := ValidateField(PeerPublicKey, value, draft, section);
            && (r.Ok? <==> exists k: Key :: value == ToBase64(k))
            && (r.Err? ==> r.error == if Utf8Len(value) != 44 then PublicKeyLength else PublicKeyInvalidBase64)
  {
    hide Decode, Utf8Len, ToBase64;
    if ValidatePublicKey(value).Ok? {
      AcceptedIsKeyText(value);
    }
    forall k: Key | value == ToBase64(k)
      ensures ValidatePublicKey(value).Ok?
    {
      KeyTextAccepted(k);
    }
  }

  /** A key is read exactly from its own text, white space around it aside. */
  lemma KeyTextIff(s: string, k: Key)
    ensures FromBase64(s) == Some(k) <==> Trim(s) == ToBase64(k)
  {
    if Decode(Trim(s)).Some? {
      EncodeOfDecode(Trim(s));
    }
    DecodeOfEncode(k);
    hide Decode, Encode, Trim;
  }

  // ---- Allowed IPs ----

  /** The token at `i` is the first with a fault, and `e` says which: not a range, held by another peer, or
      a repetition of an earlier token. */
  predicate TokenFault(cidrs: seq<string>, others: seq<string>, seen: set<string>, i: nat, e: EditError) {
    && i < |cidrs|
    && (forall j :: 0 <= j < i ==> IsValidCidr(cidrs[j]) && cidrs[j] !in others && cidrs[j] !in seen)
    && AllDistinct(cidrs[..i])
    && var t := cidrs[i];
       if !IsValidCidr(t) then e == InvalidCidr(t)
       else if t in others then e == DuplicateAllowedIp(t)
       else e == DuplicateCidrInInput && (t in seen || t in cidrs[..i])
  }

  lemma {:induction false} AllowedIpsFaultIsFirst(cidrs: seq<string>, others: seq<string>, seen: set<string>)
    requires AllowedIpsFault(cidrs, others, seen).Some?
    ensures exists i: nat :: TokenFault(cidrs, others, seen, i, AllowedIpsFault(cidrs, others, seen).value)
    decreases |cidrs|
  {
    hide IsValidCidr;
    var x, rest := cidrs[0], cidrs[1..];
    if !IsValidCidr(x) || x in others || x in seen {
      assert TokenFault(cidrs, others, seen, 0, AllowedIpsFault(cidrs, others, seen).value);
    } else {
      AllowedIpsFaultIsFirst(rest, others, seen + {x});
      var e := AllowedIpsFault(rest, others, seen + {x}).value;
      var i: nat :| TokenFault(rest, others, seen + {x}, i, e);
      TokenFaultShift(x, rest, others, seen, i, e);
      assert cidrs == [x] + rest;
    }
  }

  lemma TokenFaultShift(x: string, rest: seq<string>, others: seq<string>, seen: set<string>, i: nat, e: EditError)
    requires TokenFault(rest, others, seen + {x}, i, e)
    requires IsValidCidr(x) && x !in others && x !in seen
    ensures TokenFault([x] + rest, others, seen, i + 1, e)
  {
    hide IsValidCidr;
    var all := [x] + rest;
    assert all[i + 1] == rest[i] && all[..i + 1] == [x] + rest[..i];
    assert forall j :: 1 <= j < i + 1 ==> all[j] == rest[j - 1];
    assert all[0] == x;
  }

  /** The error for a list of allowed IPs names its first faulty token. */
  lemma AllowedIpsError(value: string, draft: WgConfig, section: ConfigSection)
    requires ValidateField(PeerAllowedIps, value, draft, section).Err?
    ensures exists i: nat :: TokenFault(ParseCommaList(value), OtherIps(draft.peers, section, 0), {}, i,
                                        ValidateField(PeerAllowedIps, value, draft, section).error)
  {
    hide ParseCommaList, TokenFault;
    AllowedIpsFaultIsFirst(ParseCommaList(value), OtherIps(draft.peers, section, 0), {});
  }

  // ---- The form ----

  predicate PeerField(field: EditableField) {
    field.PeerName? || field.PeerEndpoint? || field.PeerAllowedIps? || field.PeerPersistentKeepalive?
  }

  lemma InterfaceForm(field: EditableField)
    ensures field in INTERFACE_FIELDS <==> !PeerField(field) && !field.PeerPublicKey?
  {
    assert INTERFACE_FIELDS[0] == ListenPort && INTERFACE_FIELDS[1] == Addresses && INTERFACE_FIELDS[2] == Dns;
    assert INTERFACE_FIELDS[3] == DnsSearch && INTERFACE_FIELDS[4] == Mtu && INTERFACE_FIELDS[5] == Fwmark;
    assert INTERFACE_FIELDS[6] == PreUp && INTERFACE_FIELDS[7] == PostUp && INTERFACE_FIELDS[8] == PreDown;
    assert INTERFACE_FIELDS[9] == PostDown;
  }

  lemma PeerForm(field: EditableField)
    ensures field in PEER_FIELDS_EXISTING <==> PeerField(field)
    ensures field in PEER_FIELDS_NEW <==> PeerField(field) || field.PeerPublicKey?
  {
    assert PEER_FIELDS_EXISTING[0] == PeerName && PEER_FIELDS_EXISTING[1] == PeerEndpoint;
    assert PEER_FIELDS_EXISTING[2] == PeerAllowedIps && PEER_FIELDS_EXISTING[3] == PeerPersistentKeepalive;
    assert PEER_FIELDS_NEW == [PeerPublicKey] + PEER_FIELDS_EXISTING;
  }

  /** The form of a section offers each of its fields once: all interface fields; for a peer its name,
      endpoint, allowed IPs and keepalive, and the public key for new peers only. */
  lemma FormIsComplete(section: ConfigSection, isNew: bool)
    ensures var fields := FieldsForSection(section, isNew);
            && (forall i, j :: 0 <= i < j < |fields| ==> fields[i] != fields[j])
            && forall field :: field in fields <==>
                 if PeerField(field) then section.Peer?
                 else if field.PeerPublicKey? then section.Peer? && isNew
                 else section.Interface?
  {
    forall field
      ensures field in FieldsForSection(section, isNew) <==>
              if PeerField(field) then section.Peer?
              else if field.PeerPublicKey? then section.Peer? && isNew
              else section.Interface?
    {
      InterfaceForm(field);
      PeerForm(field);
    }
    hide PeerField;
  }

  /** The place of a field in the form. */
  function Rank(field: EditableField): nat {
    match field
    case ListenPort => 0 case Addresses => 1 case Dns => 2 case DnsSearch => 3 case Mtu => 4 case Fwmark => 5
    case PreUp => 6 case PostUp => 7 case PreDown => 8 case PostDown => 9
    case PeerPublicKey => 0 case PeerName => 1 case PeerEndpoint => 2 case PeerAllowedIps => 3
    case PeerPersistentKeepalive => 4
  }

  /** The fields are offered in the order of their places. */
  lemma FormOrder(section: ConfigSection, isNew: bool)
    ensures var fields := FieldsForSection(section, isNew);
            forall i, j :: 0 <= i < j < |fields| ==> Rank(fields[i]) < Rank(fields[j])
  {
  }

  /** How stored values are shown: zero as nothing, lists with a comma and a space, an absent peer as nothing. */
  lemma ShownValues(c: WgConfig, section: ConfigSection, n: Port)
    ensures FieldCurrentValue(ListenPort, section, c.(iface := c.iface.(listenPort := n)))
            == if n == 0 then "" else ShowNat(n)
    ensures FieldCurrentValue(Addresses, section, c.(iface := c.iface.(addresses := ["a", "b"]))) == "a" + ", " + "b"
    ensures !NamesPeer(section, c) ==> FieldCurrentValue(PeerName, section, c) == ""
    ensures NamesPeer(section, c) ==>
              FieldCurrentValue(PeerPublicKey, section, c) == ToBase64(c.peers[section.idx].publicKey)
  {
    hide ShowNat, ToBase64;
    assert ["a", "b"][1..] == ["b"];
  }
}

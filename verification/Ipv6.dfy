/** IPv6 text: `Display` and `FromStr` of `Ipv6Addr`. */
module Ipv6 {
  import opened Wrappers
  import opened Text
  import opened Decimal
  import opened Ipv4

  type Group = x: int | 0 <= x <= U16_MAX

  const GROUPS := 8

  /** The eight groups, most significant first. */
  type Ipv6Addr = s: seq<Group> | |s| == GROUPS witness [0, 0, 0, 0, 0, 0, 0, 0]

  // ---- One group ----

  predicate IsHexDigit(c: char) {
    IsDigit(c) || 'a' <= c <= 'f' || 'A' <= c <= 'F'
  }

  function HexDigit(n: nat): (c: char)
    requires n < 16
    ensures IsHexDigit(c) && DigitValue(c) == n
  {
    if n < 10 then ('0' as int + n) as char else ('a' as int + n - 10) as char
  }

  function DigitValue(c: char): (n: nat)
    requires IsHexDigit(c)
    ensures n < 16
  {
    if IsDigit(c) then c as int - '0' as int
    else if c <= 'F' then c as int - 'A' as int + 10 else c as int - 'a' as int + 10
  }

  predicate AllHex(s: string) {
    forall i :: 0 <= i < |s| ==> IsHexDigit(s[i])
  }

  /** Lower-case hexadecimal without leading zeros. */
  function ShowHex(n: nat): (s: string)
    ensures s != "" && AllHex(s)
  {
    if n < 16 then [HexDigit(n)] else ShowHex(n / 16) + [HexDigit(n % 16)]
  }

  function HexValue(s: string): nat
    requires AllHex(s)
  {
    if s == "" then 0 else 16 * HexValue(s[..|s| - 1]) + DigitValue(s[|s| - 1])
  }

  /** Up to four digits always stay in range. */
  lemma HexValueBound(s: string)
    requires AllHex(s) && |s| <= 4
    ensures HexValue(s) <= U16_MAX
  {
    if s != "" {
      var a := s[..|s| - 1];
      if a != "" {
        var b := a[..|a| - 1];
        if b != "" {
          var c := b[..|b| - 1];
          assert c == "" || c[..|c| - 1] == "";
        }
      }
    }
  }

  /** One to four digits, leading zeros allowed. */
  function ParseGroup(s: string): Option<Group> {
    if s == "" || |s| > 4 || !AllHex(s) then None
    else
      HexValueBound(s);
      Some(HexValue(s))
  }

  lemma {:induction false} HexValueOfShow(n: nat)
    ensures HexValue(ShowHex(n)) == n
  {
    if n < 16 {
    } else {
      HexValueOfShow(n / 16);
      assert ShowHex(n)[..|ShowHex(n)| - 1] == ShowHex(n / 16);
    }
  }

  lemma ShowHexLength(n: Group)
    ensures |ShowHex(n)| <= 4
  {
    assert |ShowHex(n / 16 / 16 / 16)| == 1;
    assert |ShowHex(n / 16 / 16)| <= 2;
    assert |ShowHex(n / 16)| <= 3;
  }

  lemma ParseGroupOfShow(n: Group)
    ensures ParseGroup(ShowHex(n)) == Some(n)
  {
    HexValueOfShow(n);
    ShowHexLength(n);
  }

  // ---- Printing ----

  function ShowGroups(gs: seq<Group>): (r: seq<string>)
    ensures |r| == |gs| && forall i :: 0 <= i < |gs| ==> r[i] == ShowHex(gs[i])
  {
    seq(|gs|, i requires 0 <= i < |gs| => ShowHex(gs[i]))
  }

  /** A run of groups: where it starts and how long it is. */
  datatype Span = Span(start: nat, len: nat)

  /** The first longest run of zero groups: `current` ends just before `i`. */
  function LongestZeros(ip: Ipv6Addr, i: nat, current: Span, longest: Span): Span
    requires i <= GROUPS
    decreases GROUPS - i
  {
    if i == GROUPS then longest else
    var next := if ip[i] != 0 then Span(0, 0)
                else Span(if current.len == 0 then i else current.start, current.len + 1);
    LongestZeros(ip, i + 1, next, if next.len > longest.len then next else longest)
  }

  function Octet0(g: Group): Octet { g / 256 }
  function Octet1(g: Group): Octet { g % 256 }

  /** `to_ipv4_mapped`. */
  function MappedIpv4(ip: Ipv6Addr): Option<Ipv4Addr> {
    if ip[..6] == [0, 0, 0, 0, 0, 0xFFFF]
    then Some(Ipv4Addr(Octet0(ip[6]), Octet1(ip[6]), Octet0(ip[7]), Octet1(ip[7])))
    else None
  }

  function ShowIpv6(ip: Ipv6Addr): string {
    match MappedIpv4(ip)
    case Some(v4) => "::ffff:" + ShowIpv4(v4)
    case None =>
      LongestZerosAreZeros(ip, 0, Span(0, 0), Span(0, 0));
      var z := LongestZeros(ip, 0, Span(0, 0), Span(0, 0));
      if z.len > 1 then Compressed(ip, z) else Join(ShowGroups(ip), ":")
  }

  function Compressed(ip: Ipv6Addr, z: Span): string
    requires z.start + z.len <= GROUPS
  {
    Join(ShowGroups(ip[..z.start]), ":") + "::" + Join(ShowGroups(ip[z.start + z.len..]), ":")
  }

  predicate ZeroSpan(ip: Ipv6Addr, z: Span) {
    z.start + z.len <= GROUPS && forall k :: z.start <= k < z.start + z.len ==> ip[k] == 0
  }

  lemma {:induction false} LongestZerosAreZeros(ip: Ipv6Addr, i: nat, current: Span, longest: Span)
    requires i <= GROUPS && ZeroSpan(ip, current) && ZeroSpan(ip, longest)
    requires current.len > 0 ==> current.start + current.len == i
    ensures ZeroSpan(ip, LongestZeros(ip, i, current, longest))
    decreases GROUPS - i
  {
    if i == GROUPS {
    } else {
      var next := if ip[i] != 0 then Span(0, 0)
                  else Span(if current.len == 0 then i else current.start, current.len + 1);
      LongestZerosAreZeros(ip, i + 1, next, if next.len > longest.len then next else longest);
    }
  }

  // ---- Parsing ----

  predicate GapHere(s: string, i: nat) {
    i + 1 < |s| && s[i] == ':' && s[i + 1] == ':'
  }

  /** Where the first `::` from `from` on starts, or the length when there is none. */
  function GapFrom(s: string, from: nat): (n: nat)
    requires from <= |s|
    ensures from <= n <= |s| && (n < |s| ==> GapHere(s, n))
    ensures forall i :: from <= i < n ==> !GapHere(s, i)
    decreases |s| - from
  {
    if from == |s| || GapHere(s, from) then from else GapFrom(s, from + 1)
  }

  function Gap(s: string): (n: nat)
    ensures n <= |s| && (n < |s| ==> GapHere(s, n))
    ensures forall i :: 0 <= i < n ==> !GapHere(s, i)
  {
    GapFrom(s, 0)
  }

  /** Groups between colons; where a dotted quad is allowed it is the last part and stands for two. */
  function ParseGroups(parts: seq<string>, quad: bool): Option<seq<Group>> {
    if parts == [] then Some([])
    else if quad && |parts| == 1 && ParseIpv4(parts[0]).Some? then
      var v4 := ParseIpv4(parts[0]).value;
      Some([v4.a * 256 + v4.b, v4.c * 256 + v4.d])
    else
      match (ParseGroup(parts[0]), ParseGroups(parts[1..], quad))
      case (Some(g), Some(rest)) => Some([g] + rest)
      case _ => None
  }

  /** One side of a `::`, or the whole text when there is none. */
  function ParseSide(s: string, quad: bool): Option<seq<Group>> {
    if s == "" then Some([]) else ParseGroups(Split(s, ':'), quad)
  }

  function Zeros(n: nat): (r: seq<Group>)
    ensures |r| == n && forall k :: 0 <= k < n ==> r[k] == 0
  {
    seq(n, k => 0)
  }

  /** All eight groups, or fewer on the two sides of one `::`, which stands for at least one zero group.
      A dotted quad may only end the text. */
  function ParseIpv6(s: string): Option<Ipv6Addr> {
    var n := Gap(s);
    if n == |s| then
      match ParseSide(s, true)
      case Some(gs) => if |gs| == GROUPS then Some(gs) else None
      case None => None
    else
      match (ParseSide(s[..n], false), ParseSide(s[n + 2..], true))
      case (Some(head), Some(tail)) =>
        if |head| + |tail| < GROUPS then Some(head + Zeros(GROUPS - |head| - |tail|) + tail) else None
      case _ => None
  }

  // ---- Round trip ----

  /** A text of hexadecimal groups: no empty part, so no `::` and no colon at either end. */
  predicate Grouped(s: string) {
    && (forall i :: 0 <= i < |s| - 1 ==> s[i] != ':' || s[i + 1] != ':')
    && (s != "" ==> s[0] != ':' && s[|s| - 1] != ':')
  }

  lemma {:induction false} JoinGrouped(items: seq<string>)
    requires forall t :: t in items ==> t != "" && Lacks(t, ':')
    ensures Grouped(Join(items, ":"))
    ensures items != [] ==> Join(items, ":") != ""
  {
    if items == [] {
    } else {
      assert items[0] in items;
      assert forall t :: t in items[1..] ==> t in items;
      JoinGrouped(items[1..]);
    }
  }

  lemma GapAt(a: string, b: string)
    requires Grouped(a)
    ensures Gap(a + "::" + b) == |a|
  {
    var s := a + "::" + b;
    assert GapHere(s, |a|);
    forall i | 0 <= i < |a|
      ensures !GapHere(s, i)
    {
      assert s[i] == a[i] && (i + 1 < |a| ==> s[i + 1] == a[i + 1]);
    }
  }

  lemma GapNone(s: string)
    requires Grouped(s)
    ensures Gap(s) == |s|
  {
  }

  lemma ShowHexLacks(n: nat, c: char)
    requires !IsHexDigit(c)
    ensures Lacks(ShowHex(n), c)
  {
  }

  /** Without a dot it is no dotted quad. */
  lemma HexIsNoQuad(n: nat)
    ensures ParseIpv4(ShowHex(n)).None?
  {
    ShowHexLacks(n, '.');
    SplitLone(ShowHex(n), '.');
  }

  lemma {:induction false} ParseGroupsOfShow(gs: seq<Group>, quad: bool)
    ensures ParseGroups(ShowGroups(gs), quad) == Some(gs)
  {
    hide ParseGroup, ParseIpv4, ShowHex;
    if gs == [] {
    } else {
      HexIsNoQuad(gs[0]);
      ParseGroupOfShow(gs[0]);
      ParseGroupsOfShow(gs[1..], quad);
      assert ShowGroups(gs)[1..] == ShowGroups(gs[1..]) && [gs[0]] + gs[1..] == gs;
    }
  }

  lemma GroupTextsClean(gs: seq<Group>)
    ensures forall t :: t in ShowGroups(gs) ==> t != "" && Lacks(t, ':')
  {
    forall t | t in ShowGroups(gs)
      ensures t != "" && Lacks(t, ':')
    {
      var i :| 0 <= i < |gs| && t == ShowHex(gs[i]);
      ShowHexLacks(gs[i], ':');
    }
  }

  /** Printed groups are read back, on their own or on one side of a `::`. */
  lemma ParseSideOfShow(gs: seq<Group>, quad: bool)
    ensures ParseSide(Join(ShowGroups(gs), ":"), quad) == Some(gs)
    ensures Grouped(Join(ShowGroups(gs), ":"))
  {
    hide ParseGroups, ShowHex, Grouped;
    GroupTextsClean(gs);
    JoinGrouped(ShowGroups(gs));
    if gs == [] {
      assert ShowGroups(gs) == [];
    } else {
      SplitOfJoin(ShowGroups(gs), ':');
      ParseGroupsOfShow(gs, quad);
    }
  }

  /** Two sides read on their own are read around a `::`. */
  lemma ParseAround(a: string, head: seq<Group>, b: string, tail: seq<Group>)
    requires Grouped(a) && ParseSide(a, false) == Some(head) && ParseSide(b, true) == Some(tail)
    requires |head| + |tail| < GROUPS
    ensures ParseIpv6(a + "::" + b) == Some(head + Zeros(GROUPS - |head| - |tail|) + tail)
  {
    hide ParseSide, Grouped, Gap;
    GapAt(a, b);
    var s := a + "::" + b;
    assert s[..|a|] == a && s[|a| + 2..] == b;
  }

  lemma ParseCompressed(ip: Ipv6Addr, z: Span)
    requires ZeroSpan(ip, z) && z.len > 0
    ensures ParseIpv6(Compressed(ip, z)) == Some(ip)
  {
    hide ParseIpv6, ParseSide, ShowGroups, Join, Grouped;
    var head, tail := ip[..z.start], ip[z.start + z.len..];
    ParseSideOfShow(head, false);
    ParseSideOfShow(tail, true);
    ParseAround(Join(ShowGroups(head), ":"), head, Join(ShowGroups(tail), ":"), tail);
    assert head + Zeros(z.len) + tail == ip;
  }

  lemma MappedGroups(ip: Ipv6Addr)
    requires MappedIpv4(ip).Some?
    ensures var v4 := MappedIpv4(ip).value;
            [] + Zeros(5) + ([0xFFFF] + [v4.a * 256 + v4.b, v4.c * 256 + v4.d]) == ip
  {
    assert ip[..5] == Zeros(5) && ip[5] == 0xFFFF by {
      assert forall k :: 0 <= k < 6 ==> ip[k] == ip[..6][k];
    }
    var v4 := MappedIpv4(ip).value;
    assert v4.a * 256 + v4.b == ip[6] && v4.c * 256 + v4.d == ip[7];
    assert ip == ip[..5] + [ip[5], ip[6], ip[7]];
  }

  lemma ParseMapped(ip: Ipv6Addr)
    requires MappedIpv4(ip).Some?
    ensures ParseIpv6("::ffff:" + ShowIpv4(MappedIpv4(ip).value)) == Some(ip)
  {
    var v4 := MappedIpv4(ip).value;
    var low := [v4.a * 256 + v4.b, v4.c * 256 + v4.d];
    MappedGroups(ip);
    EmptySide();
    ParseMappedTail(v4);
    hide ParseIpv6, ParseSide, ShowIpv4, MappedIpv4;
    var tail := "ffff:" + ShowIpv4(v4);
    ParseAround("", [], tail, [0xFFFF] + low);
    assert "::ffff:" + ShowIpv4(v4) == "" + "::" + tail;
  }

  lemma EmptySide()
    ensures ParseSide("", false) == Some([])
  {
  }

  lemma ParseMappedTail(v4: Ipv4Addr)
    ensures ParseSide("ffff:" + ShowIpv4(v4), true) == Some([0xFFFF] + [v4.a * 256 + v4.b, v4.c * 256 + v4.d])
  {
    var quad := ShowIpv4(v4);
    ShowIpv4Clean(v4);
    ParseIpv4OfShow(v4);
    ParseFfff();
    hide ShowIpv4, ParseIpv4, ParseGroup;
    SplitCons("ffff", ':', quad);
    SplitLone(quad, ':');
    hide Split;
    var parts := ["ffff", quad];
    assert "ffff:" + quad == "ffff" + [':'] + quad && ["ffff"] + [quad] == parts && parts[1..] == [quad];
    assert ParseGroups([quad], true) == Some([v4.a * 256 + v4.b, v4.c * 256 + v4.d]);
    assert ParseGroups(parts, true) == Some([0xFFFF] + [v4.a * 256 + v4.b, v4.c * 256 + v4.d]);
  }

  lemma ParseFfff()
    ensures ParseGroup("ffff") == Some(0xFFFF)
  {
    assert HexValue("f") == 15 by { assert "f"[..0] == ""; }
    assert HexValue("ff") == 0xFF by { assert "ff"[..1] == "f"; }
    assert HexValue("fff") == 0xFFF by { assert "fff"[..2] == "ff"; }
    assert HexValue("ffff") == 0xFFFF by { assert "ffff"[..3] == "fff"; }
  }

  /** Printing then parsing an address gives it back, compressed, mapped or neither. */
  lemma ParseIpv6OfShow(ip: Ipv6Addr)
    ensures ParseIpv6(ShowIpv6(ip)) == Some(ip)
  {
    if MappedIpv4(ip).Some? {
      hide ParseIpv6;
      ParseMapped(ip);
    } else {
      LongestZerosAreZeros(ip, 0, Span(0, 0), Span(0, 0));
      hide LongestZeros, MappedIpv4, Compressed, ParseSide, Grouped, Gap, Join, ShowGroups;
      var z := LongestZeros(ip, 0, Span(0, 0), Span(0, 0));
      if z.len > 1 {
        hide ParseIpv6;
        ParseCompressed(ip, z);
      } else {
        ParseSideOfShow(ip, true);
        GapNone(Join(ShowGroups(ip), ":"));
      }
    }
  }

  // ---- The compressed run ----

  /** What `::` stands for: no run of zero groups is longer, and none as long comes earlier. */
  ghost predicate LongestUpTo(ip: Ipv6Addr, i: nat, z: Span) {
    forall w: Span :: ZeroSpan(ip, w) && w.start + w.len <= i ==>
      w.len <= z.len && (w.len == z.len > 0 ==> z.start <= w.start)
  }

  /** The run of zero groups that ends just before `i`. */
  ghost predicate RunEndingAt(ip: Ipv6Addr, i: nat, current: Span) {
    && ZeroSpan(ip, current) && (current.len > 0 ==> current.start + current.len == i)
    && forall w: Span :: ZeroSpan(ip, w) && w.start + w.len == i ==> w.len <= current.len
  }

  lemma NextRunIsLongest(ip: Ipv6Addr, i: nat, current: Span, next: Span)
    requires i < GROUPS && RunEndingAt(ip, i, current)
    requires next == if ip[i] != 0 then Span(0, 0)
                     else Span(if current.len == 0 then i else current.start, current.len + 1)
    ensures RunEndingAt(ip, i + 1, next)
  {
    forall w: Span | ZeroSpan(ip, w) && w.start + w.len == i + 1
      ensures w.len <= next.len
    {
      if w.len > 0 {
        assert ip[i] == 0 && ZeroSpan(ip, Span(w.start, w.len - 1));
      }
    }
  }

  lemma LongestStep(ip: Ipv6Addr, i: nat, next: Span, longest: Span)
    requires longest.start + longest.len <= i && LongestUpTo(ip, i, longest) && RunEndingAt(ip, i + 1, next)
    ensures LongestUpTo(ip, i + 1, if next.len > longest.len then next else longest)
  {
    hide ZeroSpan;
  }

  lemma {:induction false} LongestZerosFrom(ip: Ipv6Addr, i: nat, current: Span, longest: Span)
    requires i <= GROUPS && longest.start + longest.len <= i && LongestUpTo(ip, i, longest)
    requires RunEndingAt(ip, i, current)
    ensures LongestUpTo(ip, GROUPS, LongestZeros(ip, i, current, longest))
    decreases GROUPS - i
  {
    if i == GROUPS {
    } else {
      var next := if ip[i] != 0 then Span(0, 0)
                  else Span(if current.len == 0 then i else current.start, current.len + 1);
      NextRunIsLongest(ip, i, current, next);
      LongestStep(ip, i, next, longest);
      hide ZeroSpan, LongestUpTo;
      LongestZerosFrom(ip, i + 1, next, if next.len > longest.len then next else longest);
    }
  }

  /** The scan finds the first longest run of zero groups. */
  lemma CompressedRunIsLongest(ip: Ipv6Addr)
    ensures LongestUpTo(ip, GROUPS, LongestZeros(ip, 0, Span(0, 0), Span(0, 0)))
  {
    LongestZerosFrom(ip, 0, Span(0, 0), Span(0, 0));
  }

  // ---- The printed text ----

  /** The characters of printed addresses. */
  predicate AddressChar(c: char) {
    IsHexDigit(c) || c == ':' || c == '.'
  }

  lemma GroupsTextLacks(gs: seq<Group>, c: char)
    requires !AddressChar(c)
    ensures Lacks(Join(ShowGroups(gs), ":"), c)
  {
    forall t | t in ShowGroups(gs)
      ensures Lacks(t, c)
    {
      var i :| 0 <= i < |gs| && t == ShowHex(gs[i]);
      ShowHexLacks(gs[i], c);
    }
    JoinLacks(ShowGroups(gs), ":", c);
  }

  lemma ShowIpv6Lacks(ip: Ipv6Addr, c: char)
    requires !AddressChar(c)
    ensures Lacks(ShowIpv6(ip), c)
  {
    LongestZerosAreZeros(ip, 0, Span(0, 0), Span(0, 0));
    var z := LongestZeros(ip, 0, Span(0, 0), Span(0, 0));
    hide LongestZeros, ZeroSpan, Join, ShowGroups, ShowIpv4, IsHexDigit, MappedIpv4;
    if MappedIpv4(ip).Some? {
      var v4 := MappedIpv4(ip).value;
      assert !IsDigit(c) && Lacks("::ffff:", c) by { IsHexF(c); }
      ShowIpv4Clean(v4);
      LacksAppend("::ffff:", ShowIpv4(v4), c);
    } else if z.len > 1 {
      var a, b := Join(ShowGroups(ip[..z.start]), ":"), Join(ShowGroups(ip[z.start + z.len..]), ":");
      GroupsTextLacks(ip[..z.start], c);
      GroupsTextLacks(ip[z.start + z.len..], c);
      LacksAppend(a, "::", c);
      LacksAppend(a + "::", b, c);
    } else {
      GroupsTextLacks(ip, c);
    }
  }

  lemma IsHexF(c: char)
    requires !AddressChar(c)
    ensures !IsDigit(c) && c != 'f' && c != ':' && c != '.'
  {
  }

  lemma ShowIpv6Clean(ip: Ipv6Addr)
    ensures ShowIpv6(ip) != "" && Trimmed(ShowIpv6(ip))
    ensures forall c :: !AddressChar(c) ==> Lacks(ShowIpv6(ip), c)
  {
    HasColon(ip);
    forall c | !AddressChar(c)
      ensures Lacks(ShowIpv6(ip), c)
    {
      ShowIpv6Lacks(ip, c);
    }
    var s := ShowIpv6(ip);
    hide ShowIpv6;
    assert IsWhite(s[0]) ==> !AddressChar(s[0]);
    assert IsWhite(s[|s| - 1]) ==> !AddressChar(s[|s| - 1]);
  }

  lemma HasColon(ip: Ipv6Addr)
    ensures !Lacks(ShowIpv6(ip), ':')
  {
    LongestZerosAreZeros(ip, 0, Span(0, 0), Span(0, 0));
    var z := LongestZeros(ip, 0, Span(0, 0), Span(0, 0));
    hide LongestZeros, ShowIpv4;
    if MappedIpv4(ip).Some? {
      assert ShowIpv6(ip)[0] == ':';
    } else if z.len > 1 {
      var a := Join(ShowGroups(ip[..z.start]), ":");
      assert ShowIpv6(ip)[|a|] == ':';
    } else {
      assert ShowIpv6(ip)[|ShowHex(ip[0])|] == ':';
    }
  }

  lemma ShowIpv6NotIpv4(ip: Ipv6Addr)
    ensures ParseIpv4(ShowIpv6(ip)).None?
  {
    HasColon(ip);
    hide ShowIpv6;
    if ParseIpv4(ShowIpv6(ip)).Some? {
      QuadLacks(ShowIpv6(ip), ':');
    }
  }
}

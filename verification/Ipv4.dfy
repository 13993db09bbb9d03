/** Dotted-quad IPv4 text: `Display` and `FromStr` of `Ipv4Addr`. */
module Ipv4 {
  import opened Wrappers
  import opened Text
  import opened Decimal

  type Octet = x: int | 0 <= x <= U8_MAX

  datatype Ipv4Addr = Ipv4Addr(a: Octet, b: Octet, c: Octet, d: Octet)

  function ShowIpv4(ip: Ipv4Addr): string {
    Join(Octets(ip), ".")
  }

  function Octets(ip: Ipv4Addr): seq<string> {
    [ShowNat(ip.a), ShowNat(ip.b), ShowNat(ip.c), ShowNat(ip.d)]
  }

  /** One to three digits, no leading zero, at most 255. */
  function ParseOctet(s: string): Option<nat> {
    if s == "" || |s| > 3 || !AllDigits(s) || (|s| > 1 && s[0] == '0') || DecValue(s) > U8_MAX then None
    else Some(DecValue(s))
  }

  function ParseIpv4(s: string): Option<Ipv4Addr> {
    var parts := Split(s, '.');
    if |parts| != 4 then None else
    match (ParseOctet(parts[0]), ParseOctet(parts[1]), ParseOctet(parts[2]), ParseOctet(parts[3]))
    case (Some(a), Some(b), Some(c), Some(d)) => Some(Ipv4Addr(a, b, c, d))
    case _ => None
  }

  lemma ParseOctetOfShow(n: Octet)
    ensures ParseOctet(ShowNat(n)) == Some(n)
  {
    DecValueOfShow(n);
    ShowNatLength(n, 3, 1000);
  }

  /** Printing then parsing an address gives it back. */
  lemma ParseIpv4OfShow(ip: Ipv4Addr)
    ensures ParseIpv4(ShowIpv4(ip)) == Some(ip)
  {
    ShowNatClean(ip.a);
    ShowNatClean(ip.b);
    ShowNatClean(ip.c);
    ShowNatClean(ip.d);
    SplitOfJoin(Octets(ip), '.');
    ParseOctetOfShow(ip.a);
    ParseOctetOfShow(ip.b);
    ParseOctetOfShow(ip.c);
    ParseOctetOfShow(ip.d);
  }

  lemma ShowIpv4Clean(ip: Ipv4Addr)
    ensures ShowIpv4(ip) != "" && Trimmed(ShowIpv4(ip))
    ensures forall c :: !IsDigit(c) && c != '.' ==> Lacks(ShowIpv4(ip), c)
  {
    ShowNatClean(ip.a);
    ShowNatClean(ip.b);
    ShowNatClean(ip.c);
    ShowNatClean(ip.d);
    JoinTrimmed(Octets(ip), ".");
    forall c | !IsDigit(c) && c != '.'
      ensures Lacks(ShowIpv4(ip), c)
    {
      JoinLacks(Octets(ip), ".", c);
    }
  }

  lemma QuadLacks(s: string, c: char)
    requires ParseIpv4(s).Some? && !IsDigit(c) && c != '.'
    ensures Lacks(s, c)
  {
    var parts := Split(s, '.');
    assert parts == [parts[0], parts[1], parts[2], parts[3]];
    hide DecValue;
    SplitWhole(s, '.', c);
  }
}

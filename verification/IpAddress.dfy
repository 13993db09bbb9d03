/** `IpAddr`: an IPv4 or an IPv6 address and its text. */
module IpAddress {
  import opened Wrappers
  import opened Text
  import opened Decimal
  import opened Ipv4
  import opened Ipv6

  datatype IpAddr = V4(v4: Ipv4Addr) | V6(v6: Ipv6Addr)

  function ShowIp(ip: IpAddr): string {
    match ip
    case V4(a) => ShowIpv4(a)
    case V6(a) => ShowIpv6(a)
  }

  function ShowIps(ips: seq<IpAddr>): (r: seq<string>)
    ensures |r| == |ips|
    ensures forall i :: 0 <= i < |ips| ==> r[i] == ShowIp(ips[i])
  {
    seq(|ips|, i requires 0 <= i < |ips| => ShowIp(ips[i]))
  }

  /** The dotted quad is tried first. */
  function ParseIp(s: string): Option<IpAddr> {
    match ParseIpv4(s)
    case Some(a) => Some(V4(a))
    case None => (match ParseIpv6(s)
                  case Some(a) => Some(V6(a))
                  case None => None)
  }

  /** Printing then parsing an address gives it back, an address of either kind. */
  lemma ParseIpOfShow(ip: IpAddr)
    ensures ParseIp(ShowIp(ip)) == Some(ip)
  {
    match ip
    case V4(a) => ParseIpv4OfShow(a);
    case V6(a) =>
      hide ParseIpv4, ParseIpv6, ShowIpv6;
      ParseIpv6OfShow(a);
      ShowIpv6NotIpv4(a);
  }

  /** A printed address is one word of digits, dots, colons and letters. */
  lemma ShowIpClean(ip: IpAddr)
    ensures ShowIp(ip) != "" && Trimmed(ShowIp(ip))
    ensures forall c :: !AddressChar(c) ==> Lacks(ShowIp(ip), c)
  {
    hide ShowIpv4, ShowIpv6, Trimmed;
    match ip
    case V4(a) => ShowIpv4Clean(a);
    case V6(a) => ShowIpv6Clean(a);
  }
}

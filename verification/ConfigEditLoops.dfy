/** The validator that fills a set while it reads a comma list (`validate_allowed_ips`). */
module ConfigEditLoops {
  import opened Wrappers
  import opened Text
  import opened ConfigEdit

  method CheckAllowedIps(s: string, others: seq<string>) returns (r: Result<(), EditError>)
    ensures r == ValidateAllowedIps(s, others)
  {
    var parts := Split(s, ',');
    var seen: set<string> := {};
    ghost var tokens := SplitTrim(s, ',');
    assert tokens[0..] == tokens && |tokens| == |parts|;
    NoFault(tokens, others);
    hide IsValidCidr, AllowedIpsFault, NonEmpty, Trim;
    for k := 0 to |parts|
      invariant AllowedIpsFault(NonEmpty(tokens[k..]), others, seen) == AllowedIpsFault(NonEmpty(tokens), others, {})
      invariant k == |parts| ==> AllowedIpsFault(NonEmpty(tokens[k..]), others, seen) == None
    {
      var cidr := Trim(parts[k]);
      FaultStep(tokens, k, others, seen);
      if cidr == "" {
        continue;
      }
      if !IsValidCidr(cidr) {
        return Err(InvalidCidr(cidr));
      }
      if cidr in others {
        return Err(DuplicateAllowedIp(cidr));
      }
      if cidr in seen {
        return Err(DuplicateCidrInInput);
      }
      seen := seen + {cidr};
    }
    return Ok(());
  }

  lemma NoFault(tokens: seq<string>, others: seq<string>)
    ensures forall seen :: AllowedIpsFault(NonEmpty(tokens[|tokens|..]), others, seen) == None
  {
    assert tokens[|tokens|..] == [];
  }

  /** What one token does to the fault of the tokens from it on. */
  lemma FaultStep(tokens: seq<string>, k: nat, others: seq<string>, seen: set<string>)
    requires k < |tokens|
    ensures AllowedIpsFault(NonEmpty(tokens[k..]), others, seen) ==
            var cidr, rest := tokens[k], NonEmpty(tokens[k + 1..]);
            if cidr == "" then AllowedIpsFault(rest, others, seen)
            else if !IsValidCidr(cidr) then Some(InvalidCidr(cidr))
            else if cidr in others then Some(DuplicateAllowedIp(cidr))
            else if cidr in seen then Some(DuplicateCidrInInput)
            else AllowedIpsFault(rest, others, seen + {cidr})
  {
    hide IsValidCidr;
    var cidr, rest := tokens[k], NonEmpty(tokens[k + 1..]);
    assert tokens[k..][0] == cidr && tokens[k..][1..] == tokens[k + 1..];
    if cidr == "" {
      assert NonEmpty(tokens[k..]) == rest;
    } else {
      assert NonEmpty(tokens[k..]) == [cidr] + rest;
      assert ([cidr] + rest)[0] == cidr && ([cidr] + rest)[1..] == rest;
    }
  }
}

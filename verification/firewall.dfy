/** The host firewall check: which iptables rules let every sandbox address reach the host. */
module Firewall {
  import opened Bits
  import opened SandboxNet
  import opened Wrappers

  // ---------- Numbers and addresses in text ----------

  predicate IsDigit(c: char) {
    '0' <= c <= '9'
  }

  function DecimalValue(s: string): nat
    requires forall c :: c in s ==> IsDigit(c)
  {
    if s == "" then 0
    else
      var c := s[|s| - 1];
      assert IsDigit(c);
      DecimalValue(s[..|s| - 1]) * 10 + (c as int - '0' as int)
  }

  /** Digits after an optional plus sign, for a number of at most `max`. */
  function ParseUnsigned(s: string, max: nat): Option<nat> {
    var digits := if s != "" && s[0] == '+' then s[1..] else s;
    if digits != "" && (forall c :: c in digits ==> IsDigit(c)) && DecimalValue(digits) <= max
      then Some(DecimalValue(digits)) else None
  }

  function IndexOf(s: string, c: char): (i: nat)
    ensures i <= |s| && (i < |s| ==> s[i] == c)
    ensures forall j :: 0 <= j < i ==> s[j] != c
  {
    if s == "" || s[0] == c then 0 else 1 + IndexOf(s[1..], c)
  }

  function Split(s: string, c: char): (parts: seq<string>)
    ensures parts != []
    decreases |s|
  {
    var i := IndexOf(s, c);
    if i == |s| then [s] else [s[..i]] + Split(s[i + 1..], c)
  }

  const U32_MAX: nat := 0xffff_ffff

  predicate IsOctet(s: string) {
    ParseUnsigned(s, U32_MAX).Some? && ParseUnsigned(s, U32_MAX).value <= 255
  }

  predicate AllOctets(parts: seq<string>) {
    forall i :: 0 <= i < |parts| ==> IsOctet(parts[i])
  }

  function OctetsValue(parts: seq<string>): (v: nat)
    requires AllOctets(parts)
  {
    if parts == [] then 0
    else
      var last := parts[|parts| - 1];
      assert IsOctet(last);
      OctetsValue(parts[..|parts| - 1]) * 256 + ParseUnsigned(last, U32_MAX).value
  }

  /** Four octets, and nothing else. */
  function Ipv4(s: string): Option<nat> {
    var parts := Split(s, '.');
    if |parts| == 4 && AllOctets(parts) then Some(OctetsValue(parts)) else None
  }

  lemma {:induction false} OctetsFit(parts: seq<string>)
    requires AllOctets(parts)
    ensures OctetsValue(parts) < Pow2(8 * |parts|)
  {
    if parts != [] {
      var n := |parts| - 1;
      OctetsFit(parts[..n]);
      Pow2Sum(8, 8 * n);
      assert Pow2(8) == 256;
    }
  }

  method ParseIpv4(s: string) returns (r: Option<nat>)
    ensures r == Ipv4(s)
    ensures r.Some? ==> r.value < TWO_32
  {
    var ip: nat, octets: nat := 0, 0;
    var parts := Split(s, '.');
    for i := 0 to |parts|
      invariant octets == i && ip < TWO_32
      invariant AllOctets(parts[..i])
      invariant i <= 4 ==> ip == OctetsValue(parts[..i])
    {
      var n := ParseUnsigned(parts[i], U32_MAX);
      if n.None? || n.value > 255 {
        assert !IsOctet(parts[i]);
        return None;
      }
      OneOctetMore(parts, i, ip, n.value);
      ip := Or(ip * 256 % TWO_32, n.value);
      octets := octets + 1;
    }
    assert parts[..|parts|] == parts;
    return if octets == 4 then Some(ip) else None;
  }

  lemma OctetsMore(parts: seq<string>, i: nat)
    requires i < |parts| && AllOctets(parts[..i]) && IsOctet(parts[i])
    ensures AllOctets(parts[..i + 1])
    ensures OctetsValue(parts[..i + 1]) == OctetsValue(parts[..i]) * 256 + ParseUnsigned(parts[i], U32_MAX).value
  {
    var more := parts[..i + 1];
    assert more[..i] == parts[..i] && more[i] == parts[i];
    forall j | 0 <= j < |more| ensures IsOctet(more[j]) {
      assert j < i ==> more[j] == parts[..i][j];
    }
  }

  lemma SmallShift(ip: nat)
    requires ip < TWO_32 / 256
    ensures ip * 256 % TWO_32 == ip * 256
  {
  }

  lemma OneOctetMore(parts: seq<string>, i: nat, ip: nat, n: nat)
    requires i < |parts| && AllOctets(parts[..i]) && IsOctet(parts[i]) && n == ParseUnsigned(parts[i], U32_MAX).value
    requires i <= 4 ==> ip == OctetsValue(parts[..i])
    ensures AllOctets(parts[..i + 1]) && Or(ip * 256 % TWO_32, n) < TWO_32
    ensures i < 4 ==> Or(ip * 256 % TWO_32, n) == OctetsValue(parts[..i + 1])
  {
    OctetsMore(parts, i);
    ShiftIn(ip, n);
    if i < 4 {
      PartsFit(parts[..i], i);
      SmallShift(ip);
    }
  }

  lemma PartsFit(parts: seq<string>, i: nat)
    requires |parts| == i < 4 && AllOctets(parts)
    ensures OctetsValue(parts) < TWO_32 / 256
  {
    OctetsFit(parts);
    var k := 8;
    assert Pow2(k) == 256;
    Pow2Sum(k, k);
    Pow2Sum(k, 2 * k);
  }

  lemma ShiftIn(ip: nat, n: nat)
    requires n <= 255
    ensures Or(ip * 256 % TWO_32, n) == ip * 256 % TWO_32 + n < TWO_32
  {
    var high := ip % 0x100_0000;
    QuotientIs(ip * 256, TWO_32, ip / 0x100_0000, high * 256);
    assert Pow2(8) == 256;
    OrDisjoint(high, 8, n);
  }

  // ---------- Covering ----------

  /** An address block in text: an address, and the prefix after a slash or 32. */
  function Cidr(subnet: string): Option<(nat, nat)> {
    var i := IndexOf(subnet, '/');
    var prefix := if i == |subnet| then Some(32) else ParseUnsigned(subnet[i + 1..], 255);
    var ip := Ipv4(subnet[..i]);
    if prefix.Some? && prefix.value <= 32 && ip.Some? then Some((ip.value, prefix.value)) else None
  }

  /** Whether two addresses share their first `prefix` bits. */
  predicate SameBlock(x: nat, y: nat, prefix: nat)
    requires prefix <= 32
  {
    Quotient(x, Pow2(32 - prefix)) == Quotient(y, Pow2(32 - prefix))
  }

  /** The text is a well-formed block that contains every address of 169.254.0.0/16. */
  ghost predicate Covers(subnet: string) {
    Cidr(subnet).Some?
    && var (ip, prefix) := Cidr(subnet).value;
       prefix <= 32 && forall x: nat :: InLinkLocal(x) ==> SameBlock(x, ip, prefix)
  }

  lemma LongPrefixIsSmall(prefix: nat)
    requires 16 < prefix <= 32
    ensures Pow2(32 - prefix) * 2 <= 0x1_0000
  {
    Pow2Sum(32 - prefix, prefix - 16);
    Pow2Of16();
    ProductsAscend(Pow2(32 - prefix), 2, Pow2(prefix - 16));
  }

  lemma LongPrefixSplitsRange(prefix: nat)
    requires 16 < prefix <= 32
    ensures !SameBlock(LINK_LOCAL, LINK_LOCAL + 0xffff, prefix)
  {
    LongPrefixIsSmall(prefix);
    if SameBlock(LINK_LOCAL, LINK_LOCAL + 0xffff, prefix) {
      SameQuotientIsClose(LINK_LOCAL, LINK_LOCAL + 0xffff, Pow2(32 - prefix));
    }
  }

  lemma SameQuotientIsClose(x: nat, y: nat, p: nat)
    requires p > 0 && x <= y && Quotient(x, p) == Quotient(y, p)
    ensures y - x < p
  {
    assert x == p * (x / p) + x % p && y == p * (y / p) + y % p;
  }

  lemma ShortPrefixKeepsRange(prefix: nat, x: nat)
    requires prefix <= 16 && InLinkLocal(x)
    ensures SameBlock(LINK_LOCAL, x, prefix)
  {
    var p := Pow2(16 - prefix);
    Pow2Sum(16, 16 - prefix);
    Pow2Of16();
    DivDiv(x, 0x1_0000, p);
    DivDiv(LINK_LOCAL, 0x1_0000, p);
    SameHalf(x);
  }

  lemma SameHalf(x: nat)
    requires InLinkLocal(x)
    ensures x / 0x1_0000 == LINK_LOCAL / 0x1_0000
  {
  }

  lemma CoversExactlyWhen(ip: nat, prefix: nat)
    requires prefix <= 32
    ensures (forall x: nat :: InLinkLocal(x) ==> SameBlock(x, ip, prefix))
            <==> prefix <= 16 && SameBlock(LINK_LOCAL, ip, prefix)
  {
    if forall x: nat :: InLinkLocal(x) ==> SameBlock(x, ip, prefix) {
      assert InLinkLocal(LINK_LOCAL) && InLinkLocal(LINK_LOCAL + 0xffff);
      assert SameBlock(LINK_LOCAL, ip, prefix) && SameBlock(LINK_LOCAL + 0xffff, ip, prefix);
      if prefix > 16 {
        LongPrefixSplitsRange(prefix);
      }
    }
    if prefix <= 16 && SameBlock(LINK_LOCAL, ip, prefix) {
      forall x: nat | InLinkLocal(x) ensures SameBlock(x, ip, prefix) {
        ShortPrefixKeepsRange(prefix, x);
      }
    }
  }

  /** Masked addresses are equal exactly when the addresses share the block. */
  lemma MasksCompareBlocks(ip: nat, prefix: nat, mask: nat)
    requires prefix <= 32 && ip < TWO_32 && mask == U32_MAX * Pow2(32 - prefix) % TWO_32
    ensures And(ip, mask) == And(LINK_LOCAL, mask) <==> SameBlock(LINK_LOCAL, ip, prefix)
  {
    MaskIs(prefix, 32 - prefix);
    MaskedIs(ip, prefix, 32 - prefix, mask);
    MaskedIs(LINK_LOCAL, prefix, 32 - prefix, mask);
    SameProduct(Quotient(ip, Pow2(32 - prefix)), Quotient(LINK_LOCAL, Pow2(32 - prefix)), Pow2(32 - prefix));
  }

  lemma MaskedIs(x: nat, prefix: nat, k: nat, mask: nat)
    requires x < TWO_32 && prefix + k == 32 && mask == (Pow2(prefix) - 1) * Pow2(k)
    ensures And(x, mask) == Quotient(x, Pow2(k)) * Pow2(k)
  {
    PowersOfTwo(prefix + k);
    AndHighMask(x, prefix, k, mask);
  }

  lemma SameProduct(a: nat, b: nat, p: nat)
    requires p > 0
    ensures a * p == b * p <==> a == b
  {
    QuotientIs(a * p, p, a, 0);
    QuotientIs(b * p, p, b, 0);
  }

  lemma MaskIs(prefix: nat, k: nat)
    requires prefix + k == 32
    ensures U32_MAX * Pow2(k) % TWO_32 == (Pow2(prefix) - 1) * Pow2(k)
  {
    PowersOfTwo(prefix + k);
    Pow2Sum(prefix, k);
    MaskArithmetic(Pow2(prefix), Pow2(k));
  }

  lemma MaskArithmetic(q: nat, p: nat)
    requires q >= 1 && p >= 1 && q * p == TWO_32
    ensures U32_MAX * p % TWO_32 == (q - 1) * p
  {
    assert (q - 1) * p == TWO_32 - p;
    QuotientIs(U32_MAX * p, TWO_32, p - 1, (q - 1) * p);
  }

  /** The masked comparison; a shift by 32 is avoided for prefix 0. */
  method BlockHolds(ip: nat, prefix: nat) returns (holds: bool)
    requires prefix <= 32 && ip < TWO_32
    ensures holds <==> SameBlock(LINK_LOCAL, ip, prefix)
  {
    var mask := if prefix == 0 then 0 else U32_MAX * Pow2(32 - prefix) % TWO_32;
    assert prefix == 0 ==> U32_MAX * Pow2(32 - prefix) % TWO_32 == 0 by { if prefix == 0 { MaskIs(0, 32); } }
    MasksCompareBlocks(ip, prefix, mask);
    holds := And(ip, mask) == And(LINK_LOCAL, mask);
  }

  /** True exactly for a well-formed block that contains the whole link-local range, and so every sandbox address. */
  method SubnetCoversLinkLocal(subnet: string) returns (covers: bool)
    ensures covers <==> Covers(subnet)
  {
    var i := IndexOf(subnet, '/');
    var addr, prefix: nat := subnet[..i], 32;
    if i < |subnet| {
      var parsed := ParseUnsigned(subnet[i + 1..], 255);
      if parsed.None? {
        return false;
      }
      prefix := parsed.value;
    }
    if prefix > 16 {
      if Cidr(subnet).Some? {
        CoversExactlyWhen(Cidr(subnet).value.0, prefix);
      }
      return false;
    }
    var ip := ParseIpv4(addr);
    if ip.None? {
      return false;
    }
    CoversExactlyWhen(ip.value, prefix);
    covers := BlockHolds(ip.value, prefix);
  }

  // ---------- The decision ----------

  datatype RuleLine =
    | Policy(chain: Option<string>, target: Option<string>)
    | Append(target: Option<string>, source: Option<string>)
    | OtherLine

  datatype Decision = Permissive | Blocked

  predicate IsInputPolicy(line: RuleLine) {
    line.Policy? && line.chain == Some("INPUT") && line.target.Some?
  }

  ghost predicate IsCoveringAccept(line: RuleLine) {
    line.Append? && line.target == Some("ACCEPT") && line.source.Some? && Covers(line.source.value)
  }

  /** The last INPUT policy in force. */
  ghost predicate IsLastPolicy(lines: seq<RuleLine>, policy: Option<string>) {
    match policy
    case None => forall i :: 0 <= i < |lines| ==> !IsInputPolicy(lines[i])
    case Some(_) =>
      exists i ::
        && 0 <= i < |lines| && IsInputPolicy(lines[i]) && lines[i].target == policy
        && forall j :: i < j < |lines| ==> !IsInputPolicy(lines[j])
  }

  /** The last line that sets the INPUT chain's policy sets it to something else than ACCEPT. */
  ghost predicate LastInputPolicyRefuses(lines: seq<RuleLine>) {
    exists i, target ::
      && 0 <= i < |lines| && lines[i] == Policy(Some("INPUT"), Some(target)) && target != "ACCEPT"
      && forall j, other :: i < j < |lines| ==> lines[j] != Policy(Some("INPUT"), Some(other))
  }

  ghost predicate CoveredByAccept(lines: seq<RuleLine>) {
    exists i, source :: 0 <= i < |lines| && lines[i] == Append(Some("ACCEPT"), Some(source)) && Covers(source)
  }

  lemma PolicyReads(lines: seq<RuleLine>)
    ensures (exists target :: IsLastPolicy(lines, Some(target)) && target != "ACCEPT")
            <==> LastInputPolicyRefuses(lines)
  {
    if target :| IsLastPolicy(lines, Some(target)) && target != "ACCEPT" {
      var i :| 0 <= i < |lines| && IsInputPolicy(lines[i]) && lines[i].target == Some(target)
               && forall j :: i < j < |lines| ==> !IsInputPolicy(lines[j]);
      assert lines[i] == Policy(Some("INPUT"), Some(target));
    }
    if LastInputPolicyRefuses(lines) {
      var i, target :|
        && 0 <= i < |lines| && lines[i] == Policy(Some("INPUT"), Some(target)) && target != "ACCEPT"
        && forall j, other :: i < j < |lines| ==> lines[j] != Policy(Some("INPUT"), Some(other));
      forall j | i < j < |lines| ensures !IsInputPolicy(lines[j]) {
        assert lines[j].Policy? && lines[j].target.Some?
               ==> lines[j] != Policy(Some("INPUT"), Some(lines[j].target.value));
      }
      assert IsLastPolicy(lines, Some(target));
    }
  }

  lemma CoveredReads(lines: seq<RuleLine>)
    ensures (forall i :: 0 <= i < |lines| ==> !IsCoveringAccept(lines[i])) <==> !CoveredByAccept(lines)
  {
    if i :| 0 <= i < |lines| && IsCoveringAccept(lines[i]) {
      assert lines[i] == Append(Some("ACCEPT"), Some(lines[i].source.value));
    }
    if CoveredByAccept(lines) {
      var i, source :| 0 <= i < |lines| && lines[i] == Append(Some("ACCEPT"), Some(source)) && Covers(source);
      assert IsCoveringAccept(lines[i]);
    }
  }

  /** The loop over the lines: the last INPUT policy, and whether an accepting rule covers the range. */
  method ReadRules(lines: seq<RuleLine>) returns (policy: Option<string>, hasCoveringAccept: bool)
    ensures IsLastPolicy(lines, policy)
    ensures hasCoveringAccept <==> exists i :: 0 <= i < |lines| && IsCoveringAccept(lines[i])
  {
    policy, hasCoveringAccept := None, false;
    for i := 0 to |lines|
      invariant IsLastPolicy(lines[..i], policy)
      invariant hasCoveringAccept <==> exists j :: 0 <= j < i && IsCoveringAccept(lines[j])
    {
      var line := lines[i];
      NextPolicy(lines, i, policy);
      if line.Policy? {
        if line.chain == Some("INPUT") && line.target.Some? {
          policy := line.target;
        }
      } else if line.Append? && line.target == Some("ACCEPT") && line.source.Some? {
        var covers := SubnetCoversLinkLocal(line.source.value);
        if covers {
          hasCoveringAccept := true;
        }
      }
    }
    assert lines[..|lines|] == lines;
  }

  /** Blocked exactly when the last INPUT policy is not ACCEPT and no accepting rule covers the range. */
  method ParseIptablesSave(lines: seq<RuleLine>) returns (d: Decision)
    ensures d == Blocked
            <==> (exists target :: IsLastPolicy(lines, Some(target)) && target != "ACCEPT")
                 && forall i :: 0 <= i < |lines| ==> !IsCoveringAccept(lines[i])
    ensures d == Blocked <==> LastInputPolicyRefuses(lines) && !CoveredByAccept(lines)
  {
    var policy, hasCoveringAccept := ReadRules(lines);
    OnePolicy(lines, policy);
    PolicyReads(lines);
    CoveredReads(lines);
    d := if policy.None? || policy.value == "ACCEPT" || hasCoveringAccept then Permissive else Blocked;
  }

  lemma NextPolicy(lines: seq<RuleLine>, i: nat, policy: Option<string>)
    requires i < |lines| && IsLastPolicy(lines[..i], policy)
    ensures IsLastPolicy(lines[..i + 1], if IsInputPolicy(lines[i]) then lines[i].target else policy)
  {
    var before, now := lines[..i], lines[..i + 1];
    assert now == before + [lines[i]];
    if IsInputPolicy(lines[i]) {
      assert now[i] == lines[i];
    } else if policy.Some? {
      var k :| 0 <= k < |before| && IsInputPolicy(before[k]) && before[k].target == policy
               && forall j :: k < j < |before| ==> !IsInputPolicy(before[j]);
      assert now[k] == before[k];
    }
  }

  lemma OnePolicy(lines: seq<RuleLine>, policy: Option<string>)
    requires IsLastPolicy(lines, policy)
    ensures forall target :: IsLastPolicy(lines, Some(target)) ==> policy == Some(target)
  {
  }
}

/** Names and addresses derived from a run id: the TAP device, the nft table and the link-local /30. */
module SandboxNet {
  import opened Bits
  import opened Ulid
  import opened Wrappers

  // ---------- Names ----------

  function TapName(runId: string): string {
    var start := if |runId| < 11 then 0 else |runId| - 11;
    "tap-" + runId[start..]
  }

  predicate NftSafe(c: char) {
    '0' <= c <= '9' || 'A' <= c <= 'Z' || 'a' <= c <= 'z' || c == '-' || c == '_'
  }

  function Sanitised(s: string): string {
    seq(|s|, i requires 0 <= i < |s| => if NftSafe(s[i]) then s[i] else '_')
  }

  function TableName(runId: string): string {
    "bunsen-" + Sanitised(runId[..if |runId| < 16 then |runId| else 16])
  }

  lemma PrependedEqual(p: string, s: string, t: string)
    ensures p + s == p + t <==> s == t
  {
    assert (p + s)[|p|..] == s && (p + t)[|p|..] == t;
  }

  /** A generated id's TAP name fits the 15 characters an interface name may have, and is told by its prefix. */
  lemma TapNameFits(v: nat)
    ensures |TapName(Encode(v))| == 15 && TapName(Encode(v)) == "tap-" + Encode(v)[15..]
  {
    EncodeSplits(v, ID_LEN, 0);
  }

  /** A generated id's table name is the prefix and the id's first 16 characters. */
  lemma TableNameIs(v: nat)
    ensures |Encode(v)| == 26 && TableName(Encode(v)) == "bunsen-" + Encode(v)[..16]
  {
    IdsAreSafe(v, 16);
  }

  /** Two generated ids share a TAP name exactly when their values agree in the low 55 bits. */
  lemma TapsCollideExactlyWhen(a: nat, b: nat)
    ensures TapName(Encode(a)) == TapName(Encode(b)) <==> a % TWO_55 == b % TWO_55
  {
    var n := 11;
    EncodeSplits(a, ID_LEN, 0);
    EncodeSplits(b, ID_LEN, 0);
    SameEndExactlyWhen(a, b, n);
    Pow32Values(n);
    PrependedEqual("tap-", Encode(a)[ID_LEN - n..], Encode(b)[ID_LEN - n..]);
  }

  lemma IdsAreSafe(v: nat, n: nat)
    requires n <= ID_LEN
    ensures |Encode(v)| == ID_LEN && Sanitised(Encode(v)[..n]) == Encode(v)[..n]
  {
    EncodeSplits(v, ID_LEN, 0);
    forall i | 0 <= i < n ensures NftSafe(Encode(v)[i]) {
      LetterIsInAlphabet(Digits(v, ID_LEN)[i]);
    }
  }

  /** Two generated ids share a table name exactly when their values agree above the low 50 bits. */
  lemma TablesCollideExactlyWhen(a: nat, b: nat)
    requires a < TWO_64 * TWO_64 && b < TWO_64 * TWO_64
    ensures TableName(Encode(a)) == TableName(Encode(b)) <==> a / TWO_50 == b / TWO_50
  {
    var n := 10;
    IdsAreSafe(a, 16);
    IdsAreSafe(b, 16);
    SameStartExactlyWhen(a, b, n);
    Pow32Values(n);
    PrependedEqual("bunsen-", Encode(a)[..16], Encode(b)[..16]);
  }

  // ---------- Addresses ----------

  const FNV_OFFSET: nat := 0x811c_9dc5
  const FNV_PRIME: nat := 0x0100_0193

  function Fnv(h: nat, bytes: Bytes): nat
    decreases |bytes|
  {
    if bytes == [] then h else Fnv(Xor(h, bytes[0] as nat) * FNV_PRIME % TWO_32, bytes[1..])
  }

  /** The published value of 32-bit FNV-1a for the text `a`, whose basis is 0x811c9dc5. */
  lemma FnvOfA(basis: nat, a: Byte)
    requires basis == 0x811c_9dc5 && a as char == 'a'
    ensures basis == FNV_OFFSET && Fnv(basis, [a]) == 0xe40c_292c
  {
    var mixed := Xor(basis, a as nat);
    MixA(0x102_393b, a as nat, 7);
    assert mixed == 0x811c_9da4;
    FnvOfOne(basis, a);
    PrimeProduct(mixed);
  }

  lemma PrimeProduct(x: nat)
    requires x == 0x811c_9da4
    ensures x * FNV_PRIME % TWO_32 == 0xe40c_292c
  {
  }

  lemma MixA(h: nat, a: nat, k: nat)
    requires a == 97 && k == 7
    ensures Xor(h * 128 + 69, a) == h * 128 + 36
  {
    assert Pow2(k) == 128;
    XorLow(h, k, 69, a);
    SmallXor(69, a);
  }

  lemma SmallXor(x: nat, y: nat)
    requires x == 69 && y == 97
    ensures Xor(x, y) == 36
  {
    assert Xor(4, 6) == 2;
    assert Xor(17, 24) == 9 && Xor(34, 48) == 18;
  }

  lemma FnvOfOne(h: nat, b: Byte)
    ensures Fnv(h, [b]) == Xor(h, b as nat) * FNV_PRIME % TWO_32
  {
    assert [b][1..] == [];
  }

  /** The block of a run: the low 14 bits of the hash of its id, with 0 moved to 1. */
  function BlockOf(runId: Bytes): (idx: nat)
    ensures 1 <= idx <= 16383
  {
    var low := Fnv(FNV_OFFSET, runId) % 16384;
    if low == 0 then 1 else low
  }

  /** `wrapping_mul` of two 32-bit words. */
  function WrappingMul(x: nat, y: nat): (product: nat)
    requires x < TWO_32 && y < TWO_32
    ensures product < TWO_32
  {
    x * y % TWO_32
  }

  /** Mixing a byte into the hash stays within 32 bits, so the xor needs no truncation. */
  lemma MixedFits(h: nat, b: Byte)
    requires h < TWO_32
    ensures Xor(h, b as nat) < TWO_32
  {
    var k := 32;
    PowersOfTwo(k);
    XorBound(h, b as nat, k);
  }

  method SubnetIndex(runId: Bytes) returns (idx: nat)
    ensures idx == BlockOf(runId)
  {
    var h: nat := FNV_OFFSET;
    for i := 0 to |runId|
      invariant h < TWO_32 && Fnv(h, runId[i..]) == Fnv(FNV_OFFSET, runId)
    {
      assert runId[i..][0] == runId[i] && runId[i..][1..] == runId[i + 1..];
      MixedFits(h, runId[i]);
      h := Xor(h, runId[i] as nat);
      h := WrappingMul(h, FNV_PRIME);
    }
    assert Pow2(14) == 16384;
    AndLowMask(h, 14);
    idx := And(h, 0x3fff);
    if idx == 0 {
      idx := 1;
    }
  }

  datatype Address = Address(a: nat, b: nat, c: nat, d: nat)

  datatype RunNetwork = RunNetwork(host: Address, guest: Address, prefixLen: nat)

  const LINK_LOCAL: nat := 0xa9fe_0000

  predicate Octets(x: Address) {
    x.a < 256 && x.b < 256 && x.c < 256 && x.d < 256
  }

  function Value(x: Address): nat {
    ((x.a * 256 + x.b) * 256 + x.c) * 256 + x.d
  }

  /** The /30 a value lies in, counted from 169.254.0.0. */
  function Block(value: nat): int {
    value / 4 - LINK_LOCAL / 4
  }

  /**
    No octet overflows, and host and guest stand at offsets 1 and 2 of the run's own /30 of the /16, which is never
    block 0. So runs with different indices have disjoint blocks.
  */
  method DeriveRunNetwork(runId: Bytes) returns (n: RunNetwork)
    ensures Octets(n.host) && Octets(n.guest) && n.prefixLen == 30
    ensures Value(n.host) == LINK_LOCAL + 4 * BlockOf(runId) + 1 && Value(n.guest) == Value(n.host) + 1
    ensures Block(Value(n.host)) == Block(Value(n.guest)) == BlockOf(runId) != 0
    ensures InLinkLocal(Value(n.host)) && InLinkLocal(Value(n.guest))
  {
    var subnetIndex := SubnetIndex(runId);
    var base := subnetIndex * 4;
    OctetMasks(base);
    var octet2 := And(base / 256, 0xff);
    var octet3 := And(base, 0xff);
    BlockAddresses(subnetIndex, octet2, octet3);
    n := RunNetwork(Address(169, 254, octet2, octet3 + 1), Address(169, 254, octet2, octet3 + 2), 30);
  }

  lemma BlockAddresses(index: nat, octet2: nat, octet3: nat)
    requires 1 <= index < 0x4000 && octet2 == index * 4 / 256 && octet3 == index * 4 % 256
    ensures octet2 < 256 && octet3 + 2 < 256
    ensures Value(Address(169, 254, octet2, octet3 + 1)) == LINK_LOCAL + 4 * index + 1
    ensures Value(Address(169, 254, octet2, octet3 + 2)) == LINK_LOCAL + 4 * index + 2
    ensures LINK_LOCAL + 4 * index + 2 <= LINK_LOCAL + 0xffff
    ensures Block(LINK_LOCAL + 4 * index + 1) == Block(LINK_LOCAL + 4 * index + 2) == index
  {
  }

  predicate InLinkLocal(value: nat) {
    LINK_LOCAL <= value <= LINK_LOCAL + 0xffff
  }

  lemma OctetMasks(base: nat)
    requires base < 0x1_0000
    ensures And(base / 256, 0xff) == base / 256 && And(base, 0xff) == base % 256
  {
    assert Pow2(8) == 256;
    AndLowMask(base / 256, 8);
    AndLowMask(base, 8);
  }
}

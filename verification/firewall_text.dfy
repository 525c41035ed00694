/**
  What the firewall check reads out of a text: decimal numerals, dotted addresses and blocks are read as the numbers
  they write, and nothing else is read.
*/
module FirewallText {
  import opened Firewall
  import opened Sequences
  import opened Wrappers

  // ---------- Numerals ----------

  function Digit(n: nat): char
    requires n < 10
  {
    "0123456789"[n]
  }

  /** A number in decimal, without leading zeros. */
  function Show(n: nat): string {
    if n < 10 then [Digit(n)] else Show(n / 10) + [Digit(n % 10)]
  }

  function Zeros(k: nat): string {
    seq(k, _ => '0')
  }

  predicate AllDigits(s: string) {
    forall c :: c in s ==> IsDigit(c)
  }

  lemma DigitIs(n: nat)
    requires n < 10
    ensures IsDigit(Digit(n)) && Digit(n) as int - '0' as int == n
  {
  }

  lemma ValuePush(s: string, n: nat)
    requires AllDigits(s) && n < 10
    ensures AllDigits(s + [Digit(n)]) && DecimalValue(s + [Digit(n)]) == DecimalValue(s) * 10 + n
  {
    DigitIs(n);
    assert (s + [Digit(n)])[..|s|] == s;
  }

  /** A numeral has the value it writes. */
  lemma {:induction false} ShownIsRead(n: nat)
    ensures Show(n) != "" && AllDigits(Show(n)) && DecimalValue(Show(n)) == n
  {
    if n < 10 {
      ValuePush("", n);
      assert "" + [Digit(n)] == [Digit(n)];
    } else {
      ShownIsRead(n / 10);
      ValuePush(Show(n / 10), n % 10);
    }
  }

  lemma DigitOf(c: char) returns (n: nat)
    requires IsDigit(c)
    ensures n < 10 && c == Digit(n)
  {
    n := c as int - '0' as int;
    DigitIs(n);
  }

  lemma ZerosPush(k: nat)
    ensures Zeros(k) + ['0'] == Zeros(k + 1)
  {
  }

  /** Every text of digits is a numeral behind zeros, and has its value. */
  lemma {:induction false} DigitsAreNumeral(s: string) returns (k: nat)
    requires s != "" && AllDigits(s)
    ensures s == Zeros(k) + Show(DecimalValue(s))
    decreases |s|
  {
    var n := |s| - 1;
    var d := DigitOf(s[n]);
    assert s == s[..n] + [s[n]];
    ValuePush(s[..n], d);
    if n == 0 {
      k := 0;
      assert s[..n] == "" && Zeros(0) + [Digit(d)] == [Digit(d)];
    } else {
      var j := DigitsAreNumeral(s[..n]);
      k := NumeralPush(j, DecimalValue(s[..n]), d);
    }
  }

  lemma NumeralPush(j: nat, v: nat, d: nat) returns (k: nat)
    requires d < 10
    ensures Zeros(j) + Show(v) + [Digit(d)] == Zeros(k) + Show(v * 10 + d)
  {
    if v == 0 {
      k := j + 1;
      ZeroIsZeros(j, v);
    } else {
      k := j;
      ShowPush(v, d);
      AppendAssoc(Zeros(j), Show(v), [Digit(d)]);
    }
  }

  lemma ShowPush(v: nat, d: nat)
    requires v > 0 && d < 10
    ensures Show(v * 10 + d) == Show(v) + [Digit(d)]
  {
    assert (v * 10 + d) / 10 == v && (v * 10 + d) % 10 == d;
  }

  lemma ZeroIsZeros(j: nat, v: nat)
    requires v == 0
    ensures Zeros(j) + Show(v) == Zeros(j + 1)
  {
    ZerosPush(j);
    assert Show(v) == ['0'];
  }

  lemma {:induction false} ZerosDoNotCount(k: nat, s: string)
    requires AllDigits(s)
    ensures AllDigits(Zeros(k) + s) && DecimalValue(Zeros(k) + s) == DecimalValue(s)
    decreases |s|
  {
    if s == "" {
      ZerosAreZero(k);
      assert Zeros(k) + s == Zeros(k);
    } else {
      var n := |s| - 1;
      var d := DigitOf(s[n]);
      assert s == s[..n] + [s[n]];
      ZerosDoNotCount(k, s[..n]);
      AppendAssoc(Zeros(k), s[..n], [s[n]]);
      ValuePush(Zeros(k) + s[..n], d);
      ValuePush(s[..n], d);
    }
  }

  lemma {:induction false} ZerosAreZero(k: nat)
    ensures AllDigits(Zeros(k)) && DecimalValue(Zeros(k)) == 0
  {
    if k > 0 {
      ZerosAreZero(k - 1);
      ZerosPush(k - 1);
      ValuePush(Zeros(k - 1), 0);
    }
  }

  /** `s` writes `n`: a numeral, perhaps behind a plus sign and zeros. */
  ghost predicate Writes(s: string, n: nat) {
    exists k: nat :: s == Zeros(k) + Show(n) || s == "+" + (Zeros(k) + Show(n))
  }

  lemma DigitsWrite(k: nat, n: nat)
    ensures var s := Zeros(k) + Show(n); s != "" && s[0] != '+' && AllDigits(s) && DecimalValue(s) == n
  {
    ShownIsRead(n);
    ZerosDoNotCount(k, Show(n));
    var s := Zeros(k) + Show(n);
    assert s[0] in s;
  }

  /** Exactly the texts that write a number of at most `max` are read, as that number. */
  lemma UnsignedExactlyWhen(s: string, max: nat, n: nat)
    ensures ParseUnsigned(s, max) == Some(n) <==> n <= max && Writes(s, n)
  {
    if ParseUnsigned(s, max) == Some(n) {
      var digits := if s != "" && s[0] == '+' then s[1..] else s;
      var k := DigitsAreNumeral(digits);
      assert s != "" && s[0] == '+' ==> s == "+" + digits;
    }
    if k: nat :| s == Zeros(k) + Show(n) || s == "+" + (Zeros(k) + Show(n)) {
      DigitsWrite(k, n);
      if s != Zeros(k) + Show(n) {
        assert s[0] == '+' && s[1..] == Zeros(k) + Show(n);
      }
    }
  }

  lemma ShowWrites(n: nat)
    ensures Writes(Show(n), n)
  {
    assert Zeros(0) + Show(n) == Show(n);
  }

  // ---------- Parts ----------

  /** The parts with a separator between neighbours. */
  function Joined(parts: seq<string>, c: char): string
    requires parts != []
  {
    if |parts| == 1 then parts[0] else parts[0] + ([c] + Joined(parts[1..], c))
  }

  predicate NoneHas(parts: seq<string>, c: char) {
    forall i :: 0 <= i < |parts| ==> c !in parts[i]
  }

  lemma {:induction false} PartsRejoin(s: string, c: char)
    ensures Joined(Split(s, c), c) == s && NoneHas(Split(s, c), c)
    decreases |s|
  {
    var i := IndexOf(s, c);
    if i < |s| {
      PartsRejoin(s[i + 1..], c);
      assert s == s[..i] + ([c] + s[i + 1..]);
      assert ([s[..i]] + Split(s[i + 1..], c))[1..] == Split(s[i + 1..], c);
    }
  }

  lemma IndexIs(s: string, c: char, i: nat)
    requires i <= |s| && c !in s[..i] && (i < |s| ==> s[i] == c)
    ensures IndexOf(s, c) == i
  {
    assert forall k :: 0 <= k < i ==> s[k] == s[..i][k] && s[k] != c;
  }

  lemma {:induction false} JoinedSplits(parts: seq<string>, c: char)
    requires parts != [] && NoneHas(parts, c)
    ensures Split(Joined(parts, c), c) == parts
    decreases |parts|
  {
    var s := Joined(parts, c);
    var i := |parts[0]|;
    if |parts| == 1 {
      assert s[..i] == s;
      IndexIs(s, c, i);
    } else {
      assert s[..i] == parts[0] && s[i] == c && s[i + 1..] == Joined(parts[1..], c);
      IndexIs(s, c, i);
      JoinedSplits(parts[1..], c);
    }
  }

  /** Splitting is the one way to read a text as parts without the separator. */
  lemma SplitExactlyWhen(s: string, c: char, parts: seq<string>)
    ensures Split(s, c) == parts <==> parts != [] && NoneHas(parts, c) && Joined(parts, c) == s
  {
    PartsRejoin(s, c);
    if parts != [] && NoneHas(parts, c) && Joined(parts, c) == s {
      JoinedSplits(parts, c);
    }
  }

  // ---------- Addresses and blocks ----------

  function AddressValue(a: nat, b: nat, c: nat, d: nat): nat {
    ((a * 256 + b) * 256 + c) * 256 + d
  }

  /** `s` is four texts joined by dots that write the octets `o`. */
  ghost predicate WritesAddress(s: string, o: seq<nat>) {
    |o| == 4 && exists parts :: PartsWrite(s, parts, o)
  }

  ghost predicate PartsWrite(s: string, parts: seq<string>, o: seq<nat>)
    requires |o| == 4
  {
    |parts| == 4 && Joined(parts, '.') == s && forall i :: 0 <= i < 4 ==> o[i] <= 255 && Writes(parts[i], o[i])
  }

  lemma NumeralsHaveNoSign(s: string, n: nat)
    requires Writes(s, n)
    ensures '.' !in s && '/' !in s && s != ""
  {
    var k: nat :| s == Zeros(k) + Show(n) || s == "+" + (Zeros(k) + Show(n));
    DigitsWrite(k, n);
  }

  lemma FourParts(parts: seq<string>)
    requires |parts| == 4 && AllOctets(parts)
    ensures forall i :: 0 <= i < 4 ==> IsOctet(parts[i])
    ensures OctetsValue(parts)
            == AddressValue(ParseUnsigned(parts[0], U32_MAX).value, ParseUnsigned(parts[1], U32_MAX).value,
                            ParseUnsigned(parts[2], U32_MAX).value, ParseUnsigned(parts[3], U32_MAX).value)
  {
    assert forall i :: 0 <= i < 4 ==> IsOctet(parts[i]);
    assert parts[..4] == parts;
    TwoParts(parts);
    OctetsMore(parts, 2);
    OctetsMore(parts, 3);
  }

  lemma TwoParts(parts: seq<string>)
    requires |parts| >= 2 && AllOctets(parts[..2])
    ensures IsOctet(parts[0]) && IsOctet(parts[1])
    ensures OctetsValue(parts[..2])
            == ParseUnsigned(parts[0], U32_MAX).value * 256 + ParseUnsigned(parts[1], U32_MAX).value
  {
    assert IsOctet(parts[..2][0]) && IsOctet(parts[..2][1]);
    assert parts[..0] == [];
    OctetsMore(parts, 0);
    OctetsMore(parts, 1);
  }

  lemma AddressIsRead(s: string, o: seq<nat>)
    requires WritesAddress(s, o)
    ensures Ipv4(s) == Some(AddressValue(o[0], o[1], o[2], o[3]))
  {
    var parts :| PartsWrite(s, parts, o);
    forall i | 0 <= i < 4
      ensures '.' !in parts[i] && IsOctet(parts[i]) && ParseUnsigned(parts[i], U32_MAX) == Some(o[i])
    {
      NumeralsHaveNoSign(parts[i], o[i]);
      UnsignedExactlyWhen(parts[i], U32_MAX, o[i]);
    }
    JoinedSplits(parts, '.');
    FourParts(parts);
  }

  lemma ReadIsAddress(s: string) returns (o: seq<nat>)
    requires Ipv4(s).Some?
    ensures WritesAddress(s, o) && Ipv4(s) == Some(AddressValue(o[0], o[1], o[2], o[3]))
  {
    var parts := Split(s, '.');
    PartsRejoin(s, '.');
    assert forall i :: 0 <= i < 4 ==> IsOctet(parts[i]);
    o := seq(4, i requires 0 <= i < 4 => ParseUnsigned(parts[i], U32_MAX).value);
    forall i | 0 <= i < 4 ensures o[i] <= 255 && Writes(parts[i], o[i]) {
      UnsignedExactlyWhen(parts[i], U32_MAX, o[i]);
    }
    assert PartsWrite(s, parts, o);
    FourParts(parts);
  }

  /** Exactly the texts that write four octets are read as an address, the first octet highest. */
  lemma AddressExactlyWhen(s: string, v: nat)
    ensures Ipv4(s) == Some(v) <==> exists o :: WritesAddress(s, o) && v == AddressValue(o[0], o[1], o[2], o[3])
  {
    if Ipv4(s) == Some(v) {
      var o := ReadIsAddress(s);
    }
    if o :| WritesAddress(s, o) && v == AddressValue(o[0], o[1], o[2], o[3]) {
      AddressIsRead(s, o);
    }
  }

  lemma AddressHasNoSlash(s: string, o: seq<nat>)
    requires WritesAddress(s, o)
    ensures '/' !in s
  {
    var parts :| PartsWrite(s, parts, o);
    forall i | 0 <= i < 4 ensures '/' !in parts[i] {
      NumeralsHaveNoSign(parts[i], o[i]);
    }
    JoinedHasNo(parts, '.', '/');
  }

  lemma {:induction false} JoinedHasNo(parts: seq<string>, c: char, x: char)
    requires parts != [] && x != c && NoneHas(parts, x)
    ensures x !in Joined(parts, c)
    decreases |parts|
  {
    if |parts| > 1 {
      JoinedHasNo(parts[1..], c, x);
    }
  }

  /** `s` is an address alone, with prefix 32, or an address, a slash and a text that writes the prefix. */
  ghost predicate WritesBlock(s: string, v: nat, prefix: nat) {
    && prefix <= 32
    && exists addr: string ::
         && Ipv4(addr) == Some(v)
         && ((s == addr && prefix == 32) || exists p :: Writes(p, prefix) && s == addr + ("/" + p))
  }

  lemma SlashAt(addr: string, p: string)
    requires '/' !in addr
    ensures var s := addr + ("/" + p); IndexOf(s, '/') == |addr| < |s| && s[..|addr|] == addr && s[|addr| + 1..] == p
  {
    var s := addr + ("/" + p);
    assert s[..|addr|] == addr;
    IndexIs(s, '/', |addr|);
  }

  lemma AddressAloneIsRead(addr: string, v: nat)
    requires Ipv4(addr) == Some(v)
    ensures Cidr(addr) == Some((v, 32))
  {
    var o := ReadIsAddress(addr);
    AddressHasNoSlash(addr, o);
    assert addr[..|addr|] == addr;
    IndexIs(addr, '/', |addr|);
  }

  lemma BlockIsRead(addr: string, p: string, v: nat, prefix: nat)
    requires prefix <= 32 && Ipv4(addr) == Some(v) && Writes(p, prefix)
    ensures Cidr(addr + ("/" + p)) == Some((v, prefix))
  {
    var o := ReadIsAddress(addr);
    AddressHasNoSlash(addr, o);
    SlashAt(addr, p);
    UnsignedExactlyWhen(p, 255, prefix);
  }

  lemma ReadIsBlock(s: string, v: nat, prefix: nat)
    requires Cidr(s) == Some((v, prefix))
    ensures WritesBlock(s, v, prefix)
  {
    var i := IndexOf(s, '/');
    if i == |s| {
      assert s[..i] == s;
    } else {
      var p := s[i + 1..];
      UnsignedExactlyWhen(p, 255, prefix);
      assert s == s[..i] + ("/" + p);
    }
  }

  /** Exactly these texts are read as blocks. */
  lemma BlockExactlyWhen(s: string, v: nat, prefix: nat)
    ensures Cidr(s) == Some((v, prefix)) <==> WritesBlock(s, v, prefix)
  {
    if Cidr(s) == Some((v, prefix)) {
      ReadIsBlock(s, v, prefix);
    }
    if WritesBlock(s, v, prefix) {
      var addr :| Ipv4(addr) == Some(v)
                  && ((s == addr && prefix == 32) || exists p :: Writes(p, prefix) && s == addr + ("/" + p));
      if s == addr && prefix == 32 {
        AddressAloneIsRead(addr, v);
      } else {
        var p :| Writes(p, prefix) && s == addr + ("/" + p);
        BlockIsRead(addr, p, v, prefix);
      }
    }
  }

  function ShowAddress(a: nat, b: nat, c: nat, d: nat): string {
    Joined([Show(a), Show(b), Show(c), Show(d)], '.')
  }

  lemma ShownAddress(a: nat, b: nat, c: nat, d: nat)
    requires a <= 255 && b <= 255 && c <= 255 && d <= 255
    ensures Ipv4(ShowAddress(a, b, c, d)) == Some(AddressValue(a, b, c, d))
  {
    var o, parts := [a, b, c, d], [Show(a), Show(b), Show(c), Show(d)];
    ShowWrites(a);
    ShowWrites(b);
    ShowWrites(c);
    ShowWrites(d);
    assert PartsWrite(ShowAddress(a, b, c, d), parts, o);
    AddressIsRead(ShowAddress(a, b, c, d), o);
  }

  /** A block written in decimal covers the range exactly when its prefix is at most 16 and it contains 169.254.0.0. */
  lemma ShownBlockCoversExactlyWhen(a: nat, b: nat, c: nat, d: nat, prefix: nat)
    requires a <= 255 && b <= 255 && c <= 255 && d <= 255 && prefix <= 32
    ensures var s := ShowAddress(a, b, c, d) + ("/" + Show(prefix));
            && Cidr(s) == Some((AddressValue(a, b, c, d), prefix))
            && (Covers(s) <==>
                  && prefix <= 16
                  && SameBlock(AddressValue(169, 254, 0, 0), AddressValue(a, b, c, d), prefix))
  {
    var s := ShowAddress(a, b, c, d) + ("/" + Show(prefix));
    ShownAddress(a, b, c, d);
    ShowWrites(prefix);
    BlockIsRead(ShowAddress(a, b, c, d), Show(prefix), AddressValue(a, b, c, d), prefix);
    CoversExactlyWhen(AddressValue(a, b, c, d), prefix);
  }
}

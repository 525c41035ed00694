/** Run ids: 128 bits as 26 base-32 characters, and the order and prefixes that follow from the layout. */
module Ulid {
  import opened Bits
  import opened Sequences

  const CROCKFORD := "0123456789ABCDEFGHJKMNPQRSTVWXYZ"

  const ID_LEN: nat := 26

  // ---------- Encoding ----------

  /** The low `n` base-32 digits of `v`, the most significant first. */
  function Digits(v: nat, n: nat): (d: seq<nat>)
    ensures |d| == n && forall i :: 0 <= i < n ==> d[i] < 32
    decreases n, v
  {
    if n == 0 then [] else Digits(v / 32, n - 1) + [v % 32]
  }

  function Characters(digits: seq<nat>): string
    requires forall i :: 0 <= i < |digits| ==> digits[i] < 32
  {
    seq(|digits|, i requires 0 <= i < |digits| => CROCKFORD[digits[i]])
  }

  function Encode(v: nat): string {
    Characters(Digits(v, ID_LEN))
  }

  method Encode26(hi: nat, lo: nat) returns (id: string)
    requires hi < TWO_64 && lo < TWO_64
    ensures id == Encode(hi * TWO_64 + lo)
  {
    OrWords(hi, lo, 64, TWO_64);
    var bits := Or(hi * TWO_64, lo);
    id := EncodeBits(bits);
  }

  method EncodeBits(v: nat) returns (id: string)
    ensures id == Encode(v)
  {
    var bits, i := v, ID_LEN;
    var chars := new char[ID_LEN](_ => '0');
    while i > 0
      invariant 0 <= i <= ID_LEN
      invariant Characters(Digits(bits, i)) + chars[i..] == Encode(v)
    {
      Mask5(bits);
      LastDigit(bits, i);
      AppendAssoc(Characters(Digits(bits / 32, i - 1)), [CROCKFORD[bits % 32]], chars[i..]);
      i := i - 1;
      chars[i] := CROCKFORD[And(bits, 0x1f)];
      bits := bits / 32;
      assert chars[i..] == [chars[i]] + chars[i + 1..];
    }
    assert [] + chars[0..] == chars[..];
    id := chars[..];
  }

  lemma OrWords(high: nat, low: nat, k: nat, p: nat)
    requires low < p && ((k == 64 && p == TWO_64) || (k == 32 && p == TWO_32))
    ensures Or(high * p, low) == high * p + low
  {
    PowersOfTwo(k);
    OrDisjoint(high, k, low);
  }

  lemma Mask5(v: nat)
    ensures And(v, 0x1f) == v % 32 < 32
  {
    assert Pow2(5) == 32;
    AndLowMask(v, 5);
  }

  lemma LastDigit(v: nat, n: nat)
    requires n > 0
    ensures Characters(Digits(v, n)) == Characters(Digits(v / 32, n - 1)) + [CROCKFORD[v % 32]]
  {
  }

  // ---------- The layout of a generated id ----------

  /** The 128 bits of an id: 48 bits of time, 48 of the first random word, and the high half of the second. */
  function Layout(tsMs: nat, randHi: nat, randLo: nat): nat {
    tsMs % TWO_48 * TWO_80 + randHi % TWO_48 * TWO_32 + randLo / TWO_32
  }

  /** Shifting a 64-bit word left drops what leaves it at the top. */
  function ShiftLeft(word: nat, factor: nat): nat {
    word * factor % TWO_64
  }

  method Generate(tsMs: nat, rand1: nat, rand2: nat) returns (id: string)
    requires tsMs < TWO_64 && rand1 < TWO_64 && rand2 < TWO_64
    ensures id == Encode(Layout(tsMs, rand1, rand2))
  {
    var randHi := And(rand1, 0xFFFF_FFFF_FFFF);
    Mask48(rand1, 48);
    var hi := Or(ShiftLeft(tsMs, 0x1_0000), randHi / TWO_32);
    var lo := Or(ShiftLeft(randHi, TWO_32), rand2 / TWO_32);
    HalvesAre(tsMs, randHi, rand2, 16, 32);
    LayoutMasked(tsMs, rand1, rand2);
    id := Encode26(hi, lo);
  }

  /** Where the parts of an id stand: the low bits of the time, of the first word, and the high half of the second. */
  lemma PartsStand(tsMs: nat, rand1: nat, rand2: nat)
    requires rand2 < TWO_64
    ensures var v := Layout(tsMs, rand1, rand2);
            && v / TWO_80 == tsMs % 0x1_0000_0000_0000
            && v / TWO_32 % 0x1_0000_0000_0000 == rand1 % 0x1_0000_0000_0000
            && v % 0x1_0000_0000 == rand2 / 0x1_0000_0000
  {
    var v, t, m, l := Layout(tsMs, rand1, rand2), tsMs % TWO_48, rand1 % TWO_48, rand2 / TWO_32;
    QuotientIs(v, TWO_80, t, m * TWO_32 + l);
    QuotientIs(v, TWO_32, t * TWO_48 + m, l);
    QuotientIs(t * TWO_48 + m, TWO_48, t, m);
  }

  lemma LayoutMasked(tsMs: nat, rand1: nat, rand2: nat)
    ensures Layout(tsMs, rand1 % TWO_48, rand2) == Layout(tsMs, rand1, rand2)
  {
  }

  lemma Mask48(v: nat, k: nat)
    requires k == 48
    ensures And(v, 0xFFFF_FFFF_FFFF) == v % TWO_48 < TWO_48
  {
    PowersOfTwo(k);
    AndLowMask(v, k);
  }

  lemma HalvesAre(ts: nat, randHi: nat, randLo: nat, j: nat, k: nat)
    requires j == 16 && k == 32 && randHi < TWO_48 && randLo < TWO_64
    ensures var hi, lo := Or(ShiftLeft(ts, 0x1_0000), randHi / TWO_32), Or(ShiftLeft(randHi, TWO_32), randLo / TWO_32);
            hi < TWO_64 && lo < TWO_64 && hi * TWO_64 + lo == Layout(ts, randHi, randLo)
  {
    Pow2Of16();
    PowersOfTwo(k);
    ShiftsAre(ts, randHi);
    OrDisjoint(ts % TWO_48, j, randHi / TWO_32);
    OrDisjoint(randHi % TWO_32, k, randLo / TWO_32);
    HalvesSum(ts % TWO_48, randHi, randLo / TWO_32);
  }

  lemma ShiftsAre(ts: nat, randHi: nat)
    ensures ShiftLeft(ts, 0x1_0000) == ts % TWO_48 * 0x1_0000
    ensures ShiftLeft(randHi, TWO_32) == randHi % TWO_32 * TWO_32
  {
    QuotientIs(ts * 0x1_0000, TWO_64, ts / TWO_48, ts % TWO_48 * 0x1_0000);
    QuotientIs(randHi * TWO_32, TWO_64, randHi / TWO_32, randHi % TWO_32 * TWO_32);
  }

  lemma HalvesSum(t: nat, randHi: nat, low: nat)
    requires t < TWO_48 && randHi < TWO_48 && low < TWO_32
    ensures var hi, lo := t * 0x1_0000 + randHi / TWO_32, randHi % TWO_32 * TWO_32 + low;
            hi < TWO_64 && lo < TWO_64 && hi * TWO_64 + lo == t * TWO_80 + randHi * TWO_32 + low
  {
  }

  // ---------- Digits of equal and of ordered values ----------

  function Pow32(n: nat): (p: nat)
    ensures p >= 1
  {
    if n == 0 then 1 else 32 * Pow32(n - 1)
  }

  /** The digits determine the value modulo the digits' range, and no more. */
  lemma {:induction false} SameDigitsExactlyWhen(a: nat, b: nat, n: nat)
    ensures Digits(a, n) == Digits(b, n) <==> a % Pow32(n) == b % Pow32(n)
    decreases n
  {
    if n > 0 {
      SameDigitsExactlyWhen(a / 32, b / 32, n - 1);
      RemainderSplits(a, Pow32(n - 1));
      RemainderSplits(b, Pow32(n - 1));
      LastOf(Digits(a / 32, n - 1), a % 32, Digits(b / 32, n - 1), b % 32);
    }
  }

  lemma RemainderSplits(a: nat, p: nat)
    requires p > 0
    ensures a % (32 * p) == a / 32 % p * 32 + a % 32
  {
    var q, r := a / 32 / p, a / 32 % p;
    assert a / 32 == p * q + r;
    assert a == (32 * p) * q + (r * 32 + a % 32) by {
      assert 32 * (p * q) == (32 * p) * q;
    }
    QuotientIs(a, 32 * p, q, r * 32 + a % 32);
  }

  lemma LastOf<T>(s: seq<T>, x: T, t: seq<T>, y: T)
    requires |s| == |t|
    ensures s + [x] == t + [y] <==> s == t && x == y
  {
    if s + [x] == t + [y] {
      assert (s + [x])[|s|] == (t + [y])[|s|];
      assert s == (s + [x])[..|s|] == (t + [y])[..|s|] == t;
    }
  }

  /**
    The first `m` of `m + n` digits are those of the value shifted right by `n` digits; the rest are its low digits.
  */
  lemma {:induction false} DigitsSplit(v: nat, m: nat, n: nat)
    ensures Digits(v, m + n) == Digits(Quotient(v, Pow32(n)), m) + Digits(v, n)
    decreases n
  {
    if n == 0 {
      assert Digits(v / 1, m) + [] == Digits(v, m);
    } else {
      DigitsSplit(v / 32, m, n - 1);
      DivDiv(v, 32, Pow32(n - 1));
      AppendAssoc(Digits(Quotient(v, Pow32(n)), m), Digits(v / 32, n - 1), [v % 32]);
    }
  }

  lemma {:induction false} Pow32IsPow2(n: nat)
    ensures Pow32(n) == Pow2(5 * n)
  {
    if n > 0 {
      Pow32IsPow2(n - 1);
      Pow2Sum(5, 5 * (n - 1));
      assert Pow2(5) == 32;
    }
  }

  // ---------- Order ----------

  /** Lexicographic order of strings. */
  predicate Below(s: string, t: string) {
    t != [] && (s == [] || s[0] < t[0] || (s[0] == t[0] && Below(s[1..], t[1..])))
  }

  lemma {:induction false} BelowPush(s: string, c: char, t: string, d: char)
    requires |s| == |t|
    ensures Below(s + [c], t + [d]) <==> Below(s, t) || (s == t && c < d)
  {
    if s == [] {
      assert [c][1..] == [] && [d][1..] == [];
    } else {
      assert (s + [c])[1..] == s[1..] + [c] && (t + [d])[1..] == t[1..] + [d];
      BelowPush(s[1..], c, t[1..], d);
      assert s == t <==> s[0] == t[0] && s[1..] == t[1..] by {
        assert s == [s[0]] + s[1..] && t == [t[0]] + t[1..];
      }
    }
  }

  /** The alphabet in ascending order: the digits, then the letters without I, L, O and U. */
  function Letter(digit: nat): char
    requires digit < 32
  {
    if digit < 10 then '0' + digit as char
    else if digit < 18 then 'A' + (digit - 10) as char
    else if digit < 20 then 'J' + (digit - 18) as char
    else if digit < 22 then 'M' + (digit - 20) as char
    else if digit < 27 then 'P' + (digit - 22) as char
    else 'V' + (digit - 27) as char
  }

  lemma LetterIsInAlphabet(i: nat)
    requires i < 32
    ensures CROCKFORD[i] == Letter(i)
  {
    assert CROCKFORD == "0123456789" + ("ABCDEFGH" + ("JK" + ("MN" + ("PQRST" + "VWXYZ"))));
  }

  lemma LettersAscend(i: nat, j: nat)
    requires i < 32 && j < 32
    ensures Letter(i) < Letter(j) <==> i < j
  {
  }

  lemma AlphabetAscends(i: nat, j: nat)
    requires i < 32 && j < 32
    ensures CROCKFORD[i] < CROCKFORD[j] <==> i < j
  {
    LetterIsInAlphabet(i);
    LetterIsInAlphabet(j);
    LettersAscend(i, j);
  }

  lemma {:induction false} CharactersEqual(d: seq<nat>, e: seq<nat>)
    requires |d| == |e| && forall i :: 0 <= i < |d| ==> d[i] < 32 && e[i] < 32
    ensures Characters(d) == Characters(e) <==> d == e
  {
    if Characters(d) == Characters(e) {
      forall i | 0 <= i < |d| ensures d[i] == e[i] {
        assert Characters(d)[i] == Characters(e)[i];
        AlphabetAscends(d[i], e[i]);
        AlphabetAscends(e[i], d[i]);
      }
    }
  }

  lemma SmallDigitsDiffer(a: nat, b: nat, n: nat)
    requires a < Pow32(n) && b < Pow32(n)
    ensures Characters(Digits(a, n)) == Characters(Digits(b, n)) <==> a == b
  {
    CharactersEqual(Digits(a, n), Digits(b, n));
    SameDigitsExactlyWhen(a, b, n);
    QuotientIs(a, Pow32(n), 0, a);
    QuotientIs(b, Pow32(n), 0, b);
  }

  lemma OrderOfDigits(a: nat, b: nat)
    ensures a < b <==> a / 32 < b / 32 || (a / 32 == b / 32 && a % 32 < b % 32)
  {
  }

  lemma {:induction false} DigitsAscend(a: nat, b: nat, n: nat)
    requires a < Pow32(n) && b < Pow32(n)
    ensures Below(Characters(Digits(a, n)), Characters(Digits(b, n))) <==> a < b
    decreases n
  {
    if n > 0 {
      LastDigit(a, n);
      LastDigit(b, n);
      OrderOfDigits(a, b);
      AlphabetAscends(a % 32, b % 32);
      DigitsAscend(a / 32, b / 32, n - 1);
      SmallDigitsDiffer(a / 32, b / 32, n - 1);
      BelowPush(Characters(Digits(a / 32, n - 1)), CROCKFORD[a % 32], Characters(Digits(b / 32, n - 1)),
        CROCKFORD[b % 32]);
    }
  }

  // ---------- What ids say about values ----------

  lemma IdsFit(v: nat, n: nat)
    requires v < TWO_64 * TWO_64 && n == ID_LEN
    ensures v < Pow32(n)
  {
    var k := 64;
    Pow32IsPow2(n);
    PowersOfTwo(k);
    Pow2Sum(k, k);
    Pow2Sum(2 * k, 2);
    assert Pow2(2) == 4;
  }

  /** Ids of 128-bit values are in lexicographic order exactly when the values are in numeric order. */
  lemma IdOrderIsValueOrder(a: nat, b: nat)
    requires a < TWO_64 * TWO_64 && b < TWO_64 * TWO_64
    ensures Below(Encode(a), Encode(b)) <==> a < b
    ensures Encode(a) == Encode(b) <==> a == b
  {
    IdsFit(a, ID_LEN);
    IdsFit(b, ID_LEN);
    DigitsAscend(a, b, ID_LEN);
    SmallDigitsDiffer(a, b, ID_LEN);
  }

  const TWO_50: nat := 0x4_0000_0000_0000
  const TWO_55: nat := 0x80_0000_0000_0000

  lemma Pow32Values(n: nat)
    ensures n == 10 ==> Pow32(n) == TWO_50
    ensures n == 11 ==> Pow32(n) == TWO_55
    ensures n == 16 ==> Pow32(n) == TWO_80
  {
    var k := 80;
    PowersOfTwo(k);
    Pow32IsPow2(16);
    assert Pow32(5) == 0x200_0000 && Pow32(10) == TWO_50 && Pow32(11) == TWO_55;
  }

  lemma EncodeSplits(v: nat, m: nat, n: nat)
    requires m + n == ID_LEN
    ensures |Encode(v)| == ID_LEN
    ensures Encode(v)[..m] == Characters(Digits(Quotient(v, Pow32(n)), m)) && Encode(v)[m..] == Characters(Digits(v, n))
  {
    DigitsSplit(v, m, n);
    var high, low := Digits(Quotient(v, Pow32(n)), m), Digits(v, n);
    assert Digits(v, ID_LEN) == high + low;
    assert Characters(high + low) == Characters(high) + Characters(low);
  }

  /** Two ids end in the same `n` characters exactly when their values agree in the low `5 * n` bits. */
  lemma SameEndExactlyWhen(a: nat, b: nat, n: nat)
    requires n <= ID_LEN
    ensures Encode(a)[ID_LEN - n..] == Encode(b)[ID_LEN - n..] <==> a % Pow32(n) == b % Pow32(n)
  {
    EncodeSplits(a, ID_LEN - n, n);
    EncodeSplits(b, ID_LEN - n, n);
    CharactersEqual(Digits(a, n), Digits(b, n));
    SameDigitsExactlyWhen(a, b, n);
  }

  /**
    Two ids of 128-bit values begin with the same characters exactly when the values agree above the other `n`
    characters' bits.
  */
  lemma SameStartExactlyWhen(a: nat, b: nat, n: nat)
    requires n <= ID_LEN && a < TWO_64 * TWO_64 && b < TWO_64 * TWO_64
    ensures Encode(a)[..ID_LEN - n] == Encode(b)[..ID_LEN - n] <==> Quotient(a, Pow32(n)) == Quotient(b, Pow32(n))
  {
    var m := ID_LEN - n;
    EncodeSplits(a, m, n);
    EncodeSplits(b, m, n);
    HighPartFits(a, m, n);
    HighPartFits(b, m, n);
    SmallDigitsDiffer(Quotient(a, Pow32(n)), Quotient(b, Pow32(n)), m);
  }

  lemma HighPartFits(v: nat, m: nat, n: nat)
    requires m + n == ID_LEN && v < TWO_64 * TWO_64
    ensures Quotient(v, Pow32(n)) < Pow32(m)
  {
    IdsFit(v, m + n);
    Pow32Sum(m, n);
    BelowProduct(v, Pow32(m), Pow32(n));
  }

  lemma BelowProduct(v: nat, a: nat, b: nat)
    requires b > 0 && v < a * b
    ensures Quotient(v, b) < a
  {
    var q := v / b;
    assert v == b * q + v % b;
    ProductsAscend(b, a, q);
  }

  lemma {:induction false} Pow32Sum(m: nat, n: nat)
    ensures Pow32(m + n) == Pow32(m) * Pow32(n)
  {
    if m > 0 {
      Pow32Sum(m - 1, n);
      assert Pow32(m + n) == 32 * Pow32(m - 1 + n) == 32 * (Pow32(m - 1) * Pow32(n)) == (32 * Pow32(m - 1)) * Pow32(n);
    }
  }

  lemma LayoutParts(tsMs: nat, rand1: nat, rand2: nat)
    requires rand2 < TWO_64
    ensures Layout(tsMs, rand1, rand2) < TWO_64 * TWO_64 && Layout(tsMs, rand1, rand2) / TWO_80 == tsMs % TWO_48
  {
  }

  /**
    The first ten characters of a generated id show the low 48 bits of its time and nothing else; later times give
    later ids.
  */
  lemma TimeComesFirst(ts: nat, r1: nat, r2: nat, ts': nat, r1': nat, r2': nat)
    requires r2 < TWO_64 && r2' < TWO_64
    ensures var id, id' := Encode(Layout(ts, r1, r2)), Encode(Layout(ts', r1', r2'));
            && |id| == |id'| == ID_LEN
            && (id[..10] == id'[..10] <==> ts % TWO_48 == ts' % TWO_48)
            && (ts % TWO_48 < ts' % TWO_48 ==> Below(id, id'))
  {
    var n := 16;
    var a, b := Layout(ts, r1, r2), Layout(ts', r1', r2');
    LayoutParts(ts, r1, r2);
    LayoutParts(ts', r1', r2');
    Pow32Values(n);
    EncodeSplits(a, ID_LEN, 0);
    EncodeSplits(b, ID_LEN, 0);
    SameStartExactlyWhen(a, b, n);
    IdOrderIsValueOrder(a, b);
  }
}

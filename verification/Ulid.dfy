/**
 Identifiers: 48 bits of time and 80 random bits in Crockford's base 32, whose
 text sorts as the numbers do.
 */
module Ulid {

  const ALPHABET := "0123456789ABCDEFGHJKMNPQRSTVWXYZ"

  // 32 to the power n.
  function Pow32(n: nat): (r: nat)
    ensures r > 0
  {
    if n == 0 then 1 else 32 * Pow32(n - 1)
  }

  /** The last n base-32 digits, most significant first. */
  function Digits(value: int, n: nat): (r: string)
    ensures |r| == n
    decreases n
  {
    if n == 0 then "" else Digits(value / 32, n - 1) + [ALPHABET[value % 32]]
  }

  function Reversed(s: string): (r: string)
    ensures |r| == |s|
  {
    if |s| == 0 then "" else Reversed(s[1..]) + [s[0]]
  }

  lemma {:induction false} ReversedSnoc(s: string, c: char)
    ensures Reversed(s + [c]) == [c] + Reversed(s)
  {
    if |s| > 0 {
      assert (s + [c])[0] == s[0] && (s + [c])[1..] == s[1..] + [c];
      ReversedSnoc(s[1..], c);
    } else {
      assert s + [c] == [c] && [c][1..] == "";
    }
  }

  /** The value after n shifts by five bits. */
  function Shifted(value: int, n: nat): int
    decreases n
  {
    if n == 0 then value else Shifted(value, n - 1) / 32
  }

  lemma {:induction false} ShiftFirst(value: int, n: nat)
    ensures Shifted(value / 32, n) == Shifted(value, n + 1)
    decreases n
  {
    if n > 0 { ShiftFirst(value, n - 1); }
  }

  /** One more digit in front. */
  lemma {:induction false} DigitsFront(value: int, n: nat)
    ensures Digits(value, n + 1) == [ALPHABET[Shifted(value, n) % 32]] + Digits(value, n)
    decreases n
  {
    if n > 0 {
      DigitsFront(value / 32, n - 1);
      ShiftFirst(value, n - 1);
    }
  }

  method Encode(value: int, length: nat) returns (text: string)
    ensures text == Digits(value, length)
  {
    var out: string := "";
    var v := value;
    var i := 0;
    while i < length
      invariant i <= length && v == Shifted(value, i) && Reversed(out) == Digits(value, i)
    {
      ReversedSnoc(out, ALPHABET[v % 32]);
      DigitsFront(value, i);
      out := out + [ALPHABET[v % 32]];
      v := v / 32;
      i := i + 1;
    }
    text := Reversed(out);
  }

  // ---------- decoding ----------

  predicate IsDigit(c: char) { c in ALPHABET }

  /** The place of a digit in the alphabet. */
  ghost function DigitValue(c: char): (r: nat)
    requires IsDigit(c)
    ensures r < |ALPHABET| && ALPHABET[r] == c
  {
    var k :| 0 <= k < |ALPHABET| && ALPHABET[k] == c;
    k
  }

  ghost predicate AllDigits(s: string) {
    forall k :: 0 <= k < |s| ==> IsDigit(s[k])
  }

  ghost function Decode(s: string): nat
    requires AllDigits(s)
  {
    if |s| == 0 then 0 else 32 * Decode(s[..|s| - 1]) + DigitValue(s[|s| - 1])
  }

  /** The digits are in ascending order, so no two are the same. */
  lemma AlphabetAscends()
    ensures forall i, j :: 0 <= i < j < |ALPHABET| ==> ALPHABET[i] < ALPHABET[j]
  {
    var n := |ALPHABET|;
    assert forall i :: 0 <= i < n - 1 ==> ALPHABET[i] < ALPHABET[i + 1];
    forall i, j | 0 <= i < j < n ensures ALPHABET[i] < ALPHABET[j] {
      Ascends(i, j);
    }
  }

  lemma {:induction false} Ascends(i: nat, j: nat)
    requires i < j < |ALPHABET|
    requires forall k :: 0 <= k < |ALPHABET| - 1 ==> ALPHABET[k] < ALPHABET[k + 1]
    ensures ALPHABET[i] < ALPHABET[j]
    decreases j - i
  {
    assert ALPHABET[j - 1] < ALPHABET[j];
    if i < j - 1 { Ascends(i, j - 1); }
  }

  lemma DigitOrder(c: char, d: char)
    requires IsDigit(c) && IsDigit(d)
    ensures c < d <==> DigitValue(c) < DigitValue(d)
    ensures c == d <==> DigitValue(c) == DigitValue(d)
  {
    AlphabetAscends();
  }

  lemma {:induction false} DigitsAreDigits(value: int, n: nat)
    ensures AllDigits(Digits(value, n))
    decreases n
  {
    if n > 0 { DigitsAreDigits(value / 32, n - 1); }
  }

  /** Decoding gives the value back modulo 32 to the length: all of it exactly
      when it fits. */
  lemma {:induction false} DecodeInverts(value: int, n: nat)
    ensures AllDigits(Digits(value, n)) && Decode(Digits(value, n)) == value % Pow32(n)
    decreases n
  {
    DigitsAreDigits(value, n);
    if n > 0 {
      var s := Digits(value, n);
      DecodeInverts(value / 32, n - 1);
      assert s[..n - 1] == Digits(value / 32, n - 1);
      AlphabetAscends();
      assert DigitValue(s[n - 1]) == value % 32;
      SplitModulo(value, Pow32(n - 1));
    }
  }

  lemma SplitModulo(v: int, m: nat)
    requires m > 0
    ensures v % (32 * m) == 32 * ((v / 32) % m) + v % 32
  {
    var q, r := v / 32 / m, 32 * ((v / 32) % m) + v % 32;
    assert v == 32 * (v / 32) + v % 32;
    assert v / 32 == m * q + (v / 32) % m;
    assert v == (32 * m) * q + r by {
      assert 32 * (m * q) == (32 * m) * q;
    }
    assert 0 <= r < 32 * m;
    UniqueRemainder(v, 32 * m, q, r);
  }

  lemma UniqueRemainder(v: int, d: nat, q: int, r: int)
    requires d > 0 && v == d * q + r && 0 <= r < d
    ensures v % d == r
  {
    var k := v / d - q;
    assert v == d * (v / d) + v % d;
    assert d * k == r - v % d by {
      assert d * (v / d - q) == d * (v / d) - d * q;
    }
    Multiples(d, k);
    assert k == 0;
  }

  lemma Multiples(d: int, k: int)
    requires d > 0
    ensures (k >= 1 ==> d * k >= d) && (k <= -1 ==> d * k <= -d)
  {}

  // ---------- order ----------

  /** Text order, by character. */
  predicate Less(a: string, b: string) {
    |b| > 0 && (|a| == 0 || a[0] < b[0] || (a[0] == b[0] && Less(a[1..], b[1..])))
  }

  lemma {:induction false} LessJoin(a: string, b: string, x: string, y: string)
    requires |a| == |b|
    ensures Less(a + x, b + y) <==> Less(a, b) || (a == b && Less(x, y))
  {
    if |a| == 0 {
      assert a + x == x && b + y == y;
    } else {
      assert (a + x)[0] == a[0] && (a + x)[1..] == a[1..] + x;
      assert (b + y)[0] == b[0] && (b + y)[1..] == b[1..] + y;
      LessJoin(a[1..], b[1..], x, y);
      assert a == [a[0]] + a[1..] && b == [b[0]] + b[1..];
    }
  }

  /** Texts of one length sort as the values they decode to, and no two of them
      decode to the same. */
  lemma {:induction false} SortsAsValue(a: string, b: string)
    requires |a| == |b| && AllDigits(a) && AllDigits(b)
    ensures Less(a, b) <==> Decode(a) < Decode(b)
    ensures Decode(a) == Decode(b) ==> a == b
    decreases |a|
  {
    hide *;
    if |a| == 0 {
      SameEmpty(a, b);
    } else {
      var n := |a| - 1;
      DecodeLast(a);
      DecodeLast(b);
      SortsAsValue(a[..n], b[..n]);
      LessSnoc(a[..n], b[..n], a[n], b[n]);
      DigitOrder(a[n], b[n]);
      assert a == a[..n] + [a[n]];
      assert b == b[..n] + [b[n]];
    }
  }

  lemma SameEmpty(a: string, b: string)
    requires |a| == |b| == 0
    ensures a == b && !Less(a, b)
  {}

  lemma DecodeLast(s: string)
    requires |s| > 0 && AllDigits(s)
    ensures var n := |s| - 1;
            IsDigit(s[n]) && AllDigits(s[..n]) && Decode(s) == 32 * Decode(s[..n]) + DigitValue(s[n])
            && DigitValue(s[n]) < 32
  {
    hide IsDigit, DigitValue;
  }

  lemma LessSnoc(x: string, y: string, c: char, d: char)
    requires |x| == |y|
    ensures Less(x + [c], y + [d]) <==> Less(x, y) || (x == y && c < d)
  {
    hide *;
    LessJoin(x, y, [c], [d]);
    LessOne(c, d);
  }

  lemma LessOne(c: char, d: char)
    ensures Less([c], [d]) <==> c < d
  {
    assert [c][1..] == [d][1..] == "";
  }

  lemma {:induction false} DecodeBound(s: string)
    requires AllDigits(s)
    ensures Decode(s) < Pow32(|s|)
    decreases |s|
  {
    if |s| > 0 { DecodeBound(s[..|s| - 1]); }
  }

  /** Encoding inverts decoding: every text of digits is the encoding of its
      value. */
  lemma EncodeInverts(s: string)
    requires AllDigits(s)
    ensures Digits(Decode(s), |s|) == s
  {
    hide *;
    DecodeBound(s);
    DecodeInverts(Decode(s), |s|);
    SmallRemainder(Decode(s), Pow32(|s|));
    SortsAsValue(Digits(Decode(s), |s|), s);
  }

  lemma SmallRemainder(v: nat, d: nat)
    requires v < d
    ensures v % d == v
  {}

  /** Values that fit sort as their encodings do. */
  lemma EncodingsSort(v: nat, w: nat, n: nat)
    requires v < Pow32(n) && w < Pow32(n)
    ensures Less(Digits(v, n), Digits(w, n)) <==> v < w
    ensures Digits(v, n) == Digits(w, n) ==> v == w
  {
    DecodeInverts(v, n);
    DecodeInverts(w, n);
    SmallRemainder(v, Pow32(n));
    SmallRemainder(w, Pow32(n));
    SortsAsValue(Digits(v, n), Digits(w, n));
  }

  // ---------- ids ----------

  const TIMES: nat := 0x1_0000_0000_0000                  // 2 to the power 48
  const RANDOMS: nat := 0x1_0000_0000_0000_0000_0000      // 2 to the power 80

  function IdOf(ms: nat, rand: nat): (r: string)
    ensures |r| == 26
  {
    Digits(ms % TIMES, 10) + Digits(rand, 16)
  }

  /** A new id from the clock, in milliseconds, and ten random bytes. */
  method NewId(ms: nat, rand: nat) returns (id: string)
    requires rand < RANDOMS
    ensures id == IdOf(ms, rand)
  {
    var time := Encode(ms % TIMES, 10);
    var rest := Encode(rand, 16);
    id := time + rest;
  }

  lemma Room()
    ensures TIMES <= Pow32(10) && RANDOMS == Pow32(16)
  {
    assert Pow32(2) == 1024;
    assert Pow32(4) == 1_048_576;
    assert Pow32(6) == 1_073_741_824;
    assert Pow32(8) == 1_099_511_627_776;
    assert Pow32(10) == 1_125_899_906_842_624;
    assert Pow32(12) == 1_152_921_504_606_846_976;
    assert Pow32(14) == 1_180_591_620_717_411_303_424;
    assert Pow32(16) == 1_208_925_819_614_629_174_706_176;
  }

  /** The digits are those of Crockford's base 32: no letter that reads like another
      digit, and no U. */
  lemma AlphabetIs(c: char)
    ensures c in ALPHABET <==> '0' <= c <= '9' || ('A' <= c <= 'Z' && c !in "ILOU")
  {}

  /** A clock of 48 bits and a random part of 80: any two readings that 48 bits tell
      apart, and any two random parts of ten bytes, give different ids. */
  lemma BitsKept(ms1: nat, rand1: nat, ms2: nat, rand2: nat)
    requires ms1 < 281_474_976_710_656 && ms2 < 281_474_976_710_656
    requires rand1 < 1_208_925_819_614_629_174_706_176 && rand2 < 1_208_925_819_614_629_174_706_176
    ensures IdOf(ms1, rand1) == IdOf(ms2, rand2) <==> ms1 == ms2 && rand1 == rand2
    ensures IdOf(ms1 + 281_474_976_710_656, rand1) == IdOf(ms1, rand1)
  {
    hide Digits;
    IdsSortByTime(ms1, rand1, ms2, rand2);
    hide IdOf;
    OneTurn(ms1);
    OneTurn(ms2);
    IdsSortByTime(ms1 + 281_474_976_710_656, rand1, ms1, rand1);
  }

  lemma OneTurn(ms: nat)
    requires ms < 281_474_976_710_656
    ensures ms % TIMES == ms && (ms + 281_474_976_710_656) % TIMES == ms
  {}

  /** Ids sort by time first and by their random part within one millisecond;
      two ids are the same only if both parts are. The time is what the clock
      shows modulo 2 to the power 48. */
  lemma IdsSortByTime(ms1: nat, rand1: nat, ms2: nat, rand2: nat)
    requires rand1 < RANDOMS && rand2 < RANDOMS
    ensures var t1, t2 := ms1 % TIMES, ms2 % TIMES;
            && (Less(IdOf(ms1, rand1), IdOf(ms2, rand2)) <==> t1 < t2 || (t1 == t2 && rand1 < rand2))
            && (IdOf(ms1, rand1) == IdOf(ms2, rand2) <==> t1 == t2 && rand1 == rand2)
  {
    Room();
    var t1, t2 := ms1 % TIMES, ms2 % TIMES;
    EncodingsSort(t1, t2, 10);
    EncodingsSort(rand1, rand2, 16);
    var a, b, x, y := Digits(t1, 10), Digits(t2, 10), Digits(rand1, 16), Digits(rand2, 16);
    LessJoin(a, b, x, y);
    assert (a + x)[..10] == a && (b + y)[..10] == b;
    assert (a + x)[10..] == x && (b + y)[10..] == y;
    hide Digits, Less;
  }
}

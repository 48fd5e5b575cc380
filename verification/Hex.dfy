/** Hexadecimal strings and bytes, as Node's `Buffer` and JavaScript's number parsing treat them. */
module Hex {
  type Byte = n: nat | n < 256

  function Digit(n: nat): (c: char)
    requires n < 16
    ensures IsHex(c) && DigitValue(c) == n && Lower(c) == c
  {
    "0123456789abcdef"[n]
  }

  predicate IsHex(c: char) {
    '0' <= c <= '9' || 'a' <= c <= 'f' || 'A' <= c <= 'F'
  }

  function DigitValue(c: char): (n: nat)
    requires IsHex(c)
    ensures n < 16
  {
    if c <= '9' then (c - '0') as nat
    else if 'a' <= c then (c - 'a') as nat + 10
    else (c - 'A') as nat + 10
  }

  function Lower(c: char): char {
    if 'A' <= c <= 'Z' then c + ('a' - 'A') else c
  }

  predicate AllHex(s: string) {
    forall i :: 0 <= i < |s| ==> IsHex(s[i])
  }

  predicate AllLower(s: string) {
    AllHex(s) && forall i :: 0 <= i < |s| ==> Lower(s[i]) == s[i]
  }

  function Pair(hi: char, lo: char): Byte
    requires IsHex(hi) && IsHex(lo)
  {
    16 * DigitValue(hi) + DigitValue(lo)
  }

  /** `Buffer.from(s, "hex")`: stops at the first pair that is not two digits, ignores a last odd digit. */
  function Decode(s: string): seq<Byte> {
    if |s| < 2 || !IsHex(s[0]) || !IsHex(s[1]) then [] else [Pair(s[0], s[1])] + Decode(s[2..])
  }

  /** `buffer.toString("hex")`. */
  function Encode(bytes: seq<Byte>): string {
    if bytes == [] then "" else [Digit(bytes[0] / 16), Digit(bytes[0] % 16)] + Encode(bytes[1..])
  }

  /** `x.startsWith("0x") ? x.substring(2) : x`. */
  function Skip0x(s: string): string {
    if |s| >= 2 && s[..2] == "0x" then s[2..] else s
  }

  /** Only a leading "0x" is skipped, and only once. */
  lemma SkipIff(s: string)
    ensures Skip0x("0x" + s) == s
    ensures Skip0x(s) == s <==> forall rest :: s != "0x" + rest
  {
    assert ("0x" + s)[..2] == "0x" && ("0x" + s)[2..] == s;
    if Skip0x(s) != s {
      assert s == "0x" + s[2..];
    }
    if rest :| s == "0x" + rest {
      assert s[..2] == "0x";
    }
  }

  /** `s.substring(from, to)` for from <= to. */
  function Substring(s: string, from: nat, to: nat): string
    requires from <= to
  {
    if |s| <= from then "" else if |s| <= to then s[from..] else s[from..to]
  }

  lemma {:induction false} DecodeAll(s: string)
    requires AllHex(s)
    ensures |Decode(s)| == |s| / 2
    ensures forall i :: 0 <= i < |s| / 2 ==> Decode(s)[i] == Pair(s[2 * i], s[2 * i + 1])
  {
    if |s| >= 2 {
      DecodeAll(s[2..]);
      forall i | 0 <= i < |s| / 2 ensures Decode(s)[i] == Pair(s[2 * i], s[2 * i + 1]) {
        if i > 0 {
          assert Decode(s)[i] == Decode(s[2..])[i - 1];
          assert s[2..][2 * (i - 1)] == s[2 * i] && s[2..][2 * (i - 1) + 1] == s[2 * i + 1];
        }
      }
    }
  }

  /** A digit's value is its place in the alphabet, whatever its case. */
  lemma DigitTable(c: char)
    requires IsHex(c)
    ensures "0123456789abcdef"[DigitValue(c)] == Lower(c) && IsHex(Lower(c)) && DigitValue(Lower(c)) == DigitValue(c)
  {
  }

  /** Decoding reads complete pairs up to the first character that is no digit, and nothing after it. */
  lemma {:induction false} DecodeStops(digits: string, rest: string)
    requires AllHex(digits) && |digits| % 2 == 0
    requires |rest| < 2 || !IsHex(rest[0]) || !IsHex(rest[1])
    ensures Decode(digits + rest) == Decode(digits)
  {
    if digits == "" {
      assert digits + rest == rest;
    } else {
      assert (digits + rest)[2..] == digits[2..] + rest;
      DecodeStops(digits[2..], rest);
    }
  }

  lemma {:induction false} EncodeAll(bytes: seq<Byte>)
    ensures |Encode(bytes)| == 2 * |bytes| && AllLower(Encode(bytes))
    ensures Decode(Encode(bytes)) == bytes
  {
    if bytes != [] {
      EncodeAll(bytes[1..]);
      assert Encode(bytes)[2..] == Encode(bytes[1..]);
      assert Pair(Digit(bytes[0] / 16), Digit(bytes[0] % 16)) == bytes[0];
    }
  }

  lemma DigitInjective(a: char, b: char)
    requires IsHex(a) && IsHex(b)
    ensures DigitValue(a) == DigitValue(b) ==> Lower(a) == Lower(b)
  {
  }

  /** Digit strings of the same even length that decode alike differ in letter case only. */
  lemma SameBytesSameDigits(a: string, b: string)
    requires AllHex(a) && AllHex(b) && |a| == |b| && |a| % 2 == 0 && Decode(a) == Decode(b)
    ensures forall i :: 0 <= i < |a| ==> Lower(a[i]) == Lower(b[i])
  {
    forall i | 0 <= i < |a| ensures Lower(a[i]) == Lower(b[i]) {
      SameDigit(a, b, i);
    }
  }

  lemma SameDigit(a: string, b: string, i: nat)
    requires AllHex(a) && AllHex(b) && |a| == |b| && |a| % 2 == 0 && Decode(a) == Decode(b) && i < |a|
    ensures Lower(a[i]) == Lower(b[i])
  {
    var j := i / 2;
    SameByteSameDigits(a, b, j);
    assert i == 2 * j || i == 2 * j + 1;
  }

  lemma SameByteSameDigits(a: string, b: string, j: nat)
    requires AllHex(a) && AllHex(b) && |a| == |b| && 2 * j + 1 < |a| && Decode(a) == Decode(b)
    ensures Lower(a[2 * j]) == Lower(b[2 * j]) && Lower(a[2 * j + 1]) == Lower(b[2 * j + 1])
  {
    DecodeAll(a);
    DecodeAll(b);
    assert Decode(a)[j] == Pair(a[2 * j], a[2 * j + 1]) && Decode(b)[j] == Pair(b[2 * j], b[2 * j + 1]);
    SamePair(a[2 * j], a[2 * j + 1], b[2 * j], b[2 * j + 1]);
  }

  lemma SamePair(a: char, a': char, b: char, b': char)
    requires IsHex(a) && IsHex(a') && IsHex(b) && IsHex(b') && Pair(a, a') == Pair(b, b')
    ensures Lower(a) == Lower(b) && Lower(a') == Lower(b')
  {
    DigitInjective(a, b);
    DigitInjective(a', b');
  }
}

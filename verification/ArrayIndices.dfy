/** Decimal keys, and which of them are indices of a JavaScript array. */
module ArrayIndices {
  import opened Wrappers

  // ---- decimal numerals ----

  function Digit(d: nat): (c: char)
    requires d < 10
    ensures IsDigit(c) && DigitValue(c) == d
  {
    '0' + d as char
  }

  predicate IsDigit(c: char) {
    '0' <= c <= '9'
  }

  function DigitValue(c: char): nat
    requires IsDigit(c)
  {
    (c - '0') as nat
  }

  function Decimal(n: nat): string {
    if n < 10 then [Digit(n)] else Decimal(n / 10) + [Digit(n % 10)]
  }

  predicate AllDigits(s: string) {
    forall i :: 0 <= i < |s| ==> IsDigit(s[i])
  }

  function Value(s: string): nat
    requires AllDigits(s)
  {
    if s == "" then 0 else 10 * Value(s[..|s| - 1]) + DigitValue(s[|s| - 1])
  }

  lemma {:induction false} ValueOfDecimal(n: nat)
    ensures AllDigits(Decimal(n)) && Value(Decimal(n)) == n && Decimal(n) != ""
  {
    var s := Decimal(n);
    if n < 10 {
      assert s[..0] == "";
    } else {
      ValueOfDecimal(n / 10);
      assert s[..|s| - 1] == Decimal(n / 10);
    }
  }

  lemma DecimalInjective(i: nat, j: nat)
    requires Decimal(i) == Decimal(j)
    ensures i == j
  {
    ValueOfDecimal(i);
    ValueOfDecimal(j);
  }

  // ---- indices ----

  const MAX_LENGTH: nat := 0xFFFF_FFFF

  /** The key as an array index, if it is one: a numeral without leading zeros below the greatest length. */
  function Index(key: string): (r: Option<nat>)
    ensures r.Some? ==> r.value < MAX_LENGTH && key == Decimal(r.value)
  {
    if AllDigits(key) && Value(key) < MAX_LENGTH && key == Decimal(Value(key)) then Some(Value(key)) else None
  }

  lemma IndexOfDecimal(i: nat)
    ensures Index(Decimal(i)) == if i < MAX_LENGTH then Some(i) else None
  {
    ValueOfDecimal(i);
  }

  predicate HasIndex(keys: set<string>, i: nat) {
    i < MAX_LENGTH && Decimal(i) in keys
  }

  /** `n` is the length of an array with these keys: one more than the greatest index among them. */
  ghost predicate IsLength(keys: set<string>, n: nat) {
    && (forall i: nat :: HasIndex(keys, i) ==> i < n)
    && (n > 0 ==> HasIndex(keys, n - 1))
  }

  /** The length after a key has been assigned. */
  function Lengthened(n: nat, key: string): nat {
    match Index(key) case Some(i) => if i < n then n else i + 1 case None => n
  }

  lemma LengthenedIsLength(keys: set<string>, n: nat, key: string)
    requires IsLength(keys, n)
    ensures IsLength(keys + {key}, Lengthened(n, key))
  {
    forall i: nat | HasIndex(keys + {key}, i) ensures i < Lengthened(n, key) {
      IndexOfDecimal(i);
      assert HasIndex(keys, i) || Decimal(i) == key;
    }
    var m := Lengthened(n, key);
    assert m > 0 ==> HasIndex(keys + {key}, m - 1) by { assert m == n && n > 0 ==> HasIndex(keys, n - 1); }
  }

  lemma LengthUnique(keys: set<string>, m: nat, n: nat)
    requires IsLength(keys, m) && IsLength(keys, n)
    ensures m == n
  {
  }

  lemma {:induction false} LengthExists(keys: set<string>)
    ensures exists n :: IsLength(keys, n)
  {
    if keys == {} {
      assert IsLength(keys, 0);
    } else {
      var key :| key in keys;
      LengthExists(keys - {key});
      var n :| IsLength(keys - {key}, n);
      LengthenedIsLength(keys - {key}, n, key);
      assert keys - {key} + {key} == keys;
    }
  }

  ghost function Length(keys: set<string>): (n: nat)
    ensures IsLength(keys, n)
  {
    LengthExists(keys);
    var n :| IsLength(keys, n);
    n
  }

  /** The keys of an array of length `n` without holes. */
  function IndexKeys(n: nat): set<string> {
    set i | 0 <= i < n :: Decimal(i)
  }

  lemma LengthOfIndexKeys(n: nat)
    requires n <= MAX_LENGTH
    ensures Length(IndexKeys(n)) == n
  {
    forall i: nat | HasIndex(IndexKeys(n), i) ensures i < n {
      var j :| 0 <= j < n && Decimal(i) == Decimal(j);
      DecimalInjective(i, j);
    }
    assert n > 0 ==> HasIndex(IndexKeys(n), n - 1);
    LengthUnique(IndexKeys(n), n, Length(IndexKeys(n)));
  }
}

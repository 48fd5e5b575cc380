/** Base64 (section 4 of RFC 4648) as `btoa` writes it and as the forgiving `atob` reads it. */
module Base64 {
  import opened Wrappers
  import opened Hex

  predicate InAlphabet(c: char) {
    'A' <= c <= 'Z' || 'a' <= c <= 'z' || '0' <= c <= '9' || c == '+' || c == '/'
  }

  predicate AllAlphabet(s: string) {
    forall i :: 0 <= i < |s| ==> InAlphabet(s[i])
  }

  function Sextet(c: char): (n: nat)
    requires InAlphabet(c)
    ensures n < 64
  {
    if 'A' <= c <= 'Z' then (c - 'A') as nat
    else if 'a' <= c <= 'z' then (c - 'a') as nat + 26
    else if '0' <= c <= '9' then (c - '0') as nat + 52
    else if c == '+' then 62 else 63
  }

  function Letter(n: nat): (c: char)
    requires n < 64
    ensures InAlphabet(c) && Sextet(c) == n
  {
    if n < 26 then 'A' + n as char
    else if n < 52 then 'a' + (n - 26) as char
    else if n < 62 then '0' + (n - 52) as char
    else if n == 62 then '+' else '/'
  }

  /** The alphabet of section 4 of RFC 4648. */
  lemma LetterTable(n: nat)
    requires n < 64
    ensures n < 26 ==> Letter(n) == "ABCDEFGHIJKLMNOPQRSTUVWXYZ"[n]
    ensures 26 <= n < 52 ==> Letter(n) == "abcdefghijklmnopqrstuvwxyz"[n - 26]
    ensures 52 <= n ==> Letter(n) == "0123456789+/"[n - 52]
  {
    if n < 26 {
      UpperTable(n);
    } else if n < 52 {
      LowerTable(n - 26);
    }
  }

  lemma UpperTable(n: nat)
    requires n < 26
    ensures "ABCDEFGHIJKLMNOPQRSTUVWXYZ"[n] == 'A' + n as char
  {
  }

  lemma LowerTable(n: nat)
    requires n < 26
    ensures "abcdefghijklmnopqrstuvwxyz"[n] == 'a' + n as char
  {
  }

  type Six = n: nat | n < 64

  function Letters(xs: seq<Six>): (s: string)
    ensures AllAlphabet(s)
  {
    seq(|xs|, i requires 0 <= i < |xs| => Letter(xs[i]))
  }

  function Values(s: string): seq<Six>
    requires AllAlphabet(s)
  {
    seq(|s|, i requires 0 <= i < |s| => Sextet(s[i]))
  }

  function First(x0: Six, x1: Six): Byte { x0 * 4 + x1 / 16 }

  function Second(x1: Six, x2: Six): Byte { x1 % 16 * 16 + x2 / 4 }

  function Third(x2: Six, x3: Six): Byte { x2 % 4 * 64 + x3 }

  function Single(b0: Byte): (xs: seq<Six>)
    ensures |xs| == 2 && First(xs[0], xs[1]) == b0
  {
    var x0: Six, x1: Six := b0 / 4, b0 % 4 * 16;
    [x0, x1]
  }

  function Double(b0: Byte, b1: Byte): (xs: seq<Six>)
    ensures |xs| == 3 && First(xs[0], xs[1]) == b0 && Second(xs[1], xs[2]) == b1
  {
    var x0: Six, x1: Six, x2: Six := b0 / 4, b0 % 4 * 16 + b1 / 16, b1 % 16 * 4;
    [x0, x1, x2]
  }

  function Triple(b0: Byte, b1: Byte, b2: Byte): (xs: seq<Six>)
    ensures |xs| == 4 && First(xs[0], xs[1]) == b0 && Second(xs[1], xs[2]) == b1 && Third(xs[2], xs[3]) == b2
  {
    var x0: Six, x1: Six := b0 / 4, b0 % 4 * 16 + b1 / 16;
    var x2: Six, x3: Six := b1 % 16 * 4 + b2 / 64, b2 % 64;
    [x0, x1, x2, x3]
  }

  /** A group of four values and its three bytes are the same 24-bit number. */
  lemma GroupIsNumber(x0: Six, x1: Six, x2: Six, x3: Six)
    ensures 0x10000 * (First(x0, x1) as nat) + 0x100 * (Second(x1, x2) as nat) + Third(x2, x3) as nat
         == 0x40000 * (x0 as nat) + 0x1000 * (x1 as nat) + 0x40 * (x2 as nat) + x3 as nat
  {
  }

  /** The bits that are missing in a last group are written as 0. */
  lemma LastGroupEndsInZeros(b0: Byte, b1: Byte)
    ensures Single(b0)[1] % 16 == 0 && Double(b0, b1)[2] % 4 == 0
  {
  }

  /** Groups of three bytes become four six-bit values; one or two last bytes become two or three. */
  function Regroup(bs: seq<Byte>): seq<Six> {
    if bs == [] then []
    else if |bs| == 1 then Single(bs[0])
    else if |bs| == 2 then Double(bs[0], bs[1])
    else Triple(bs[0], bs[1], bs[2]) + Regroup(bs[3..])
  }

  /** The reverse; the bits left over in a last group of two or three values are dropped unread. */
  function Ungroup(xs: seq<Six>): seq<Byte> {
    if |xs| < 2 then []
    else if |xs| == 2 then [First(xs[0], xs[1])]
    else if |xs| == 3 then [First(xs[0], xs[1]), Second(xs[1], xs[2])]
    else [First(xs[0], xs[1]), Second(xs[1], xs[2]), Third(xs[2], xs[3])] + Ungroup(xs[4..])
  }

  function EncodeBody(bs: seq<Byte>): string {
    Letters(Regroup(bs))
  }

  function DecodeBody(s: string): seq<Byte>
    requires AllAlphabet(s)
  {
    Ungroup(Values(s))
  }

  function Pads(n: nat): string {
    if n % 3 == 0 then "" else if n % 3 == 1 then "==" else "="
  }

  function Btoa(bs: seq<Byte>): string {
    EncodeBody(bs) + Pads(|bs|)
  }

  /** The text without its last `=` characters, two at most. */
  function StripPads(s: string): string {
    if |s| >= 2 && s[|s| - 2..] == "==" then s[..|s| - 2]
    else if |s| >= 1 && s[|s| - 1] == '=' then s[..|s| - 1]
    else s
  }

  /** The regular expression: letters of the alphabet, then at most two `=`. */
  predicate IsValidBase64(s: string) {
    AllAlphabet(StripPads(s))
  }

  /** `None` is an exception. */
  function Atob(s: string): Option<seq<Byte>> {
    var body := if |s| % 4 == 0 then StripPads(s) else s;
    if |body| % 4 == 1 || !AllAlphabet(body) then None else Some(DecodeBody(body))
  }

  lemma UngroupQuad(xs: seq<Six>, rest: seq<Six>)
    requires |xs| == 4
    ensures Ungroup(xs + rest) == [First(xs[0], xs[1]), Second(xs[1], xs[2]), Third(xs[2], xs[3])] + Ungroup(rest)
  {
    assert (xs + rest)[4..] == rest;
  }

  lemma {:induction false} RegroupRoundTrip(bs: seq<Byte>)
    ensures Ungroup(Regroup(bs)) == bs
  {
    if |bs| < 3 {
      assert |bs| == 1 ==> bs == [bs[0]];
      assert |bs| == 2 ==> bs == [bs[0], bs[1]];
    } else {
      RegroupRoundTrip(bs[3..]);
      UngroupQuad(Triple(bs[0], bs[1], bs[2]), Regroup(bs[3..]));
      assert bs == [bs[0], bs[1], bs[2]] + bs[3..];
    }
  }

  lemma {:induction false} RegroupLength(bs: seq<Byte>)
    ensures |Regroup(bs)| % 4 == LastGroup(|bs|)
  {
    if |bs| >= 3 {
      RegroupLength(bs[3..]);
      FullGroup(|bs|, |Regroup(bs[3..])|);
      assert |Regroup(bs)| == |Regroup(bs[3..])| + 4;
    }
  }

  lemma FullGroup(n: nat, m: nat)
    requires n >= 3 && m % 4 == LastGroup(n - 3)
    ensures (m + 4) % 4 == LastGroup(n)
  {
  }

  /** How many letters the last, incomplete group of `n` bytes takes. */
  function LastGroup(n: nat): nat {
    if n % 3 == 0 then 0 else n % 3 + 1
  }

  lemma ValuesOfLetters(xs: seq<Six>)
    ensures |Letters(xs)| == |xs| && Values(Letters(xs)) == xs
  {
  }

  /** Padding is taken off again, because the letters never end in `=`. */
  lemma PadsComeOff(body: string, pads: string)
    requires AllAlphabet(body) && (pads == "" || pads == "=" || pads == "==")
    ensures StripPads(body + pads) == body
  {
    var text := body + pads;
    assert body != [] ==> InAlphabet(body[|body| - 1]);
    if pads == "==" {
      assert text[|text| - 2..] == "==" && text[..|text| - 2] == body;
    } else if |text| >= 2 {
      assert text[|text| - 2..][0] == text[|text| - 2] && text[|text| - 2..][1] == text[|text| - 1];
      if pads == "=" { assert text[|text| - 2] == body[|body| - 1] && text[..|text| - 1] == body; }
    }
  }

  /** What `btoa` writes is valid, and `atob` reads it back. */
  lemma RoundTrip(bs: seq<Byte>)
    ensures IsValidBase64(Btoa(bs)) && Atob(Btoa(bs)) == Some(bs)
  {
    var body := EncodeBody(bs);
    RegroupRoundTrip(bs);
    RegroupLength(bs);
    ValuesOfLetters(Regroup(bs));
    PadsFill(|bs|, |body|);
    PadsComeOff(body, Pads(|bs|));
    AtobOfPadded(body, Pads(|bs|));
    assert AllAlphabet(StripPads(body + Pads(|bs|)));
  }

  lemma PadsFill(n: nat, m: nat)
    requires m % 4 == LastGroup(n)
    ensures (m + |Pads(n)|) % 4 == 0 && m % 4 != 1
    ensures Pads(n) == "" || Pads(n) == "=" || Pads(n) == "=="
  {
  }

  lemma AtobOfPadded(body: string, pads: string)
    requires AllAlphabet(body) && StripPads(body + pads) == body && |body + pads| % 4 == 0 && |body| % 4 != 1
    ensures Atob(body + pads) == Some(DecodeBody(body))
  {
  }
}

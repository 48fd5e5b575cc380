/**
 * Ethereum signatures as strings and buffers: `toVrs` with its compact form (EIP-2098), `fromRpcSig`,
 * `fixSignature`, and the hardware-wallet detour over EIP-191 version 0x45.
 */
module Signatures {
  import opened Wrappers
  import opened Hex

  datatype Signature = Signature(v: nat, r: seq<Byte>, s: seq<Byte>)

  // ---- toVrs ----

  datatype Vrs = Vrs(r: string, v: nat, s: string, compact: string)

  function Zeros(n: nat): string {
    seq(n, _ => '0')
  }

  function OrZeroWord(s: string): string {
    if s == "" then Zeros(64) else s
  }

  /** `parseInt(s, 16)` on hexadecimal digits; `None` is NaN. */
  function ParseHex(s: string): Option<nat>
    requires AllHex(s)
  {
    if s == "" then None else Some(Positional(s))
  }

  function Positional(s: string): nat
    requires AllHex(s)
  {
    if s == "" then 0 else 16 * Positional(s[..|s| - 1]) + DigitValue(s[|s| - 1])
  }

  /** `n.toString(16)` below 256: one digit when one is enough. */
  function ShortHex(n: Byte): string {
    if n < 16 then [Digit(n)] else [Digit(n / 16), Digit(n % 16)]
  }

  /** `b | 0x80`. */
  function SetTopBit(b: Byte): Byte {
    if b < 128 then b + 128 else b
  }

  /** `b & 0x7f`. */
  function ClearTopBit(b: Byte): Byte {
    b % 128
  }

  lemma TwoDigits(s: string)
    requires AllHex(s) && |s| <= 2
    ensures Positional(s) < 256
    ensures |s| == 2 ==> Positional(s) == Pair(s[0], s[1])
  {
    if |s| == 2 {
      assert s[..1] == [s[0]] && s[..1][..0] == "";
      assert Positional(s[..1]) == DigitValue(s[0]);
    } else if |s| == 1 {
      assert s[..0] == "";
    }
  }

  /** The canonical recovery id: 0 and 1 stand for 27 and 28. */
  function CanonicalV(v: nat): nat {
    if v < 27 then v + 27 else v
  }

  function ToVrs(sig: string): Vrs
    requires AllHex(Skip0x(sig))
  {
    var sig0 := Skip0x(sig);
    var r := "0x" + OrZeroWord(Substring(sig0, 0, 64));
    var s := "0x" + OrZeroWord(Substring(sig0, 64, 128));
    var v := match ParseHex(Substring(sig0, 128, 130)) case Some(n) => n case None => 0;
    TwoDigits(Substring(sig0, 64, 66));
    var byte32 := match ParseHex(Substring(sig0, 64, 66))
      case Some(n) => Some(if v % 2 == 0 then SetTopBit(n) else n)
      case None => if v % 2 == 0 then Some(128) else None;
    var vs := (if byte32.Some? then ShortHex(byte32.value) else "NaN") + Substring(sig0, 66, 128);
    Vrs(r, CanonicalV(v), s, r + vs)
  }

  /** `toVrs` on digits of any length: a missing r or s is zero, and digits after the recovery byte are ignored. */
  lemma ToVrsAnyLength(sig: string)
    requires AllHex(Skip0x(sig))
    ensures var sig0, n := Skip0x(sig), |Skip0x(sig)|; var t := ToVrs(sig);
      && t.r == "0x" + (if n == 0 then seq(64, _ => '0') else sig0[..if n < 64 then n else 64])
      && t.s == "0x" + (if n <= 64 then seq(64, _ => '0') else sig0[64..if n < 128 then n else 128])
  {
    assert Zeros(64) == seq(64, _ => '0');
  }

  /** Without a recovery byte v is 27, and a single digit is one. */
  lemma ToVrsRecovery(sig: string)
    requires AllHex(Skip0x(sig))
    ensures var sig0, n := Skip0x(sig), |Skip0x(sig)|;
      ToVrs(sig).v == if n <= 128 then 27
                      else if n == 129 then CanonicalV(DigitValue(sig0[128]))
                      else CanonicalV(Pair(sig0[128], sig0[129]))
  {
    var sig0, n := Skip0x(sig), |Skip0x(sig)|;
    if n == 129 {
      assert Substring(sig0, 128, 130) == sig0[128..];
      OneDigit(sig0[128..]);
    } else if n >= 130 {
      SubstringWithin(sig0, 128, 130);
      TwoDigits(sig0[128..130]);
      assert Pair(sig0[128..130][0], sig0[128..130][1]) == Pair(sig0[128], sig0[129]);
    }
  }

  /** The compact form of a signature without a recovery byte marks the first s-byte, which is 0 when s is missing. */
  lemma ToVrsCompactUnfinished(sig: string)
    requires AllHex(Skip0x(sig)) && |Skip0x(sig)| <= 128 && |Skip0x(sig)| != 65
    ensures var sig0, t := Skip0x(sig), ToVrs(sig);
      t.compact == t.r + if |sig0| <= 64 then "80" else ShortHex(SetTopBit(Pair(sig0[64], sig0[65]))) + sig0[66..]
  {
    var sig0 := Skip0x(sig);
    assert Substring(sig0, 128, 130) == "";
    if |sig0| > 64 {
      SubstringWithin(sig0, 64, 66);
      TwoDigits(sig0[64..66]);
      assert Substring(sig0, 66, 128) == sig0[66..];
      UnfinishedText(ToVrs(sig), sig0[64..66], sig0[66..]);
    } else {
      assert ShortHex(128) == "80";
      assert Substring(sig0, 64, 66) == Substring(sig0, 66, 128) == "";
    }
  }

  lemma UnfinishedText(t: Vrs, pair: string, rest: string)
    requires AllHex(pair) && |pair| == 2 && Positional(pair) < 256
    requires t.compact == t.r + (ShortHex(SetTopBit(Positional(pair))) + rest)
    ensures Positional(pair) == Pair(pair[0], pair[1])
    ensures t.compact == t.r + ShortHex(SetTopBit(Pair(pair[0], pair[1]))) + rest
  {
    TwoDigits(pair);
  }

  lemma OneDigit(s: string)
    requires AllHex(s) && |s| == 1
    ensures Positional(s) == DigitValue(s[0])
  {
    assert s[..0] == "";
  }

  // ---- fromRpcSig ----

  datatype SigError = InvalidLength | UnsafeInteger | UnknownV(v: nat) | OutOfRange

  function BigEndian(bytes: seq<Byte>): nat {
    if bytes == [] then 0 else 256 * BigEndian(bytes[..|bytes| - 1]) + bytes[|bytes| - 1]
  }

  /** What a buffer of these bytes decodes to. */
  function RpcSig(bytes: seq<Byte>): Result<Signature, SigError> {
    if |bytes| >= 65 then
      var v := BigEndian(bytes[64..]);
      if v >= 0x20_0000_0000_0000 then Err(UnsafeInteger)
      else Ok(Signature(if v < 27 then v + 27 else v, bytes[..32], bytes[32..64]))
    else if |bytes| == 64 then
      Ok(Signature(27 + bytes[32] / 128, bytes[..32], Masked(bytes)[32..64]))
    else Err(InvalidLength)
  }

  /** What is left in the buffer: decoding a compact signature clears the top bit of byte 32. */
  function Masked(bytes: seq<Byte>): seq<Byte> {
    if |bytes| == 64 then bytes[32 := ClearTopBit(bytes[32])] else bytes
  }

  /** `buf.slice(from, to)`: a view of the same memory. */
  datatype View = View(buf: array<Byte>, from: nat, to: nat)

  ghost predicate InBounds(w: View) {
    w.from <= w.to <= w.buf.Length
  }

  ghost function Bytes(w: View): seq<Byte>
    requires InBounds(w)
    reads w.buf
  {
    w.buf[w.from..w.to]
  }

  datatype Decoded = Decoded(v: nat, r: View, s: View)

  method FromRpcSig(buf: array<Byte>) returns (d: Result<Decoded, SigError>)
    modifies buf
    ensures buf[..] == Masked(old(buf[..]))
    ensures match RpcSig(old(buf[..]))
            case Err(e) => d == Err(e)
            case Ok(sig) =>
              && d.Ok? && d.value.v == sig.v && d.value.r.buf == buf && d.value.s.buf == buf
              && InBounds(d.value.r) && InBounds(d.value.s)
              && Bytes(d.value.r) == sig.r && Bytes(d.value.s) == sig.s
  {
    var r, s := View(buf, 0, 32), View(buf, 32, 64);
    var v: nat;
    if buf.Length >= 65 {
      v := BigEndian(buf[64..]);
      if v >= 0x20_0000_0000_0000 { return Err(UnsafeInteger); }
    } else if buf.Length == 64 {
      v := buf[32] / 128;
      buf[32] := ClearTopBit(buf[32]);
    } else {
      return Err(InvalidLength);
    }
    if v < 27 { v := v + 27; }
    return Ok(Decoded(v, r, s));
  }

  /** A second decoding of the buffer agrees exactly when it was not a compact form with its parity bit set. */
  lemma DecodeTwiceIff(bytes: seq<Byte>)
    ensures RpcSig(Masked(bytes)) == RpcSig(bytes) <==> !(|bytes| == 64 && bytes[32] >= 128)
    ensures Masked(Masked(bytes)) == Masked(bytes)
    ensures |Masked(bytes)| == |bytes| && forall i :: 0 <= i < |bytes| && i != 32 ==> Masked(bytes)[i] == bytes[i]
  {
    if |bytes| == 64 {
      var once := Masked(bytes);
      assert once[32] == bytes[32] % 128 && Masked(once) == once;
      if bytes[32] < 128 { assert once == bytes; }
    }
  }

  // ---- the compact form is a codec, except where it is not ----

  /** A 65-byte signature written in hexadecimal digits, with or without the 0x. */
  predicate IsSignature65(sig: string) {
    AllHex(Skip0x(sig)) && |Skip0x(sig)| == 130
  }

  function BytesOf(sig: string): (bs: seq<Byte>)
    requires IsSignature65(sig)
    ensures |bs| == 65
  {
    DecodeAll(Skip0x(sig));
    Decode(Skip0x(sig))
  }

  /** EIP-2098's own encoding, on bytes. */
  function CompactBytes(bs: seq<Byte>): seq<Byte>
    requires |bs| == 65
  {
    bs[..32] + [if bs[64] % 2 == 0 then SetTopBit(bs[32]) else bs[32]] + bs[33..64]
  }

  /** The first compact s-byte needs two digits, so the text is not one digit short. */
  predicate TextComplete(bs: seq<Byte>)
    requires |bs| == 65
  {
    CompactBytes(bs)[32] >= 16
  }

  /** `toVrs` on the bare digits, without the defaults for a string that is too short. */
  function VrsOf(sig0: string, v: Byte, byte32: Byte): Vrs
    requires |sig0| == 130
  {
    var r := "0x" + sig0[..64];
    Vrs(r, CanonicalV(v), "0x" + sig0[64..128], r + (ShortHex(byte32) + sig0[66..128]))
  }

  lemma ToVrsDigits(sig: string)
    requires IsSignature65(sig)
    ensures ToVrs(sig) == VrsOf(Skip0x(sig), BytesOf(sig)[64], CompactBytes(BytesOf(sig))[32])
  {
    var sig0 := Skip0x(sig);
    DigitPair(sig0, 64);
    DigitPair(sig0, 32);
    SubstringWithin(sig0, 0, 64);
    SubstringWithin(sig0, 64, 128);
    SubstringWithin(sig0, 128, 130);
    SubstringWithin(sig0, 64, 66);
    SubstringWithin(sig0, 66, 128);
  }

  lemma SubstringWithin(s: string, from: nat, to: nat)
    requires from < to <= |s|
    ensures Substring(s, from, to) == s[from..to] != ""
  {
  }

  lemma DigitPair(sig0: string, i: nat)
    requires AllHex(sig0) && |sig0| == 130 && i < 65
    ensures AllHex(sig0[2 * i..2 * i + 2]) && |Decode(sig0)| == 65
    ensures Decode(sig0)[i] == Positional(sig0[2 * i..2 * i + 2])
  {
    DecodeAll(sig0);
    TwoDigits(sig0[2 * i..2 * i + 2]);
  }

  lemma ToVrsParts(sig: string)
    requires IsSignature65(sig)
    ensures var sig0, bs, t := Skip0x(sig), BytesOf(sig), ToVrs(sig);
      && t.r == "0x" + sig0[..64] && t.s == "0x" + sig0[64..128]
      && t.v == CanonicalV(bs[64])
  {
    ToVrsDigits(sig);
  }

  lemma ToVrsCompact(sig: string)
    requires IsSignature65(sig)
    ensures Skip0x(ToVrs(sig).compact) == CompactText(Skip0x(sig), CompactBytes(BytesOf(sig))[32])
    ensures ToVrs(sig).compact == "0x" + CompactText(Skip0x(sig), CompactBytes(BytesOf(sig))[32])
  {
    ToVrsDigits(sig);
    CompactOfDigits(Skip0x(sig), BytesOf(sig)[64], CompactBytes(BytesOf(sig))[32]);
  }

  lemma CompactOfDigits(sig0: string, v: Byte, byte32: Byte)
    requires AllHex(sig0) && |sig0| == 130
    ensures VrsOf(sig0, v, byte32).compact == "0x" + CompactText(sig0, byte32)
    ensures Skip0x(VrsOf(sig0, v, byte32).compact) == CompactText(sig0, byte32)
  {
    SkipPrefix(CompactText(sig0, byte32));
    var vs := ShortHex(byte32) + sig0[66..128];
    assert "0x" + sig0[..64] + vs == "0x" + (sig0[..64] + ShortHex(byte32) + sig0[66..128]);
  }

  lemma SkipPrefix(digits: string)
    ensures Skip0x("0x" + digits) == digits
  {
  }

  /** The compact text decodes to the EIP-2098 bytes, or comes out one digit short and loses its last byte. */
  lemma CompactDecodes(sig0: string, bs: seq<Byte>)
    requires AllHex(sig0) && |sig0| == 130 && bs == Decode(sig0) && |bs| == 65
    ensures var c := CompactText(sig0, CompactBytes(bs)[32]);
      if TextComplete(bs) then Decode(c) == CompactBytes(bs) else |Decode(c)| == 63
  {
    var b := CompactBytes(bs)[32];
    var c := CompactText(sig0, b);
    DecodeAll(sig0);
    DecodeAll(c);
    if b >= 16 {
      forall i | 0 <= i < 64 ensures Decode(c)[i] == CompactBytes(bs)[i] {
        if i != 32 { assert c[2 * i] == sig0[2 * i] && c[2 * i + 1] == sig0[2 * i + 1]; }
      }
    }
  }

  function CompactText(sig0: string, b: Byte): (c: string)
    requires AllHex(sig0) && |sig0| == 130
    ensures AllHex(c) && |c| == (if b >= 16 then 128 else 127)
    ensures b >= 16 ==> c[64] == Digit(b / 16) && c[65] == Digit(b % 16)
    ensures b >= 16 ==> forall i :: 0 <= i < 128 && i != 64 && i != 65 ==> c[i] == sig0[i]
  {
    sig0[..64] + ShortHex(b) + sig0[66..128]
  }

  /** EIP-2098 on bytes: decoding recovers r always, s when its top bit is clear, and v by parity. */
  lemma CompactBytesDecode(bs: seq<Byte>)
    requires |bs| == 65
    ensures var d := RpcSig(CompactBytes(bs));
      && d.Ok? && d.value.r == bs[..32] && (d.value.s == bs[32..64] <==> bs[32] < 128)
      && d.value.v == (if bs[64] % 2 == 0 || bs[32] >= 128 then 28 else 27)
  {
    var cb := CompactBytes(bs);
    assert cb[..32] == bs[..32];
    ChangedAt32(bs, Masked(cb));
  }

  lemma ChangedAt32(bs: seq<Byte>, masked: seq<Byte>)
    requires |bs| == 65 && |masked| == 64 && masked[32] == ClearTopBit(bs[32])
    requires forall i :: 32 < i < 64 ==> masked[i] == bs[i]
    ensures masked[32..64] == bs[32..64] <==> bs[32] < 128
  {
    assert masked[32..64][0] == masked[32] && bs[32..64][0] == bs[32];
  }

  /** When the EIP-2098 bytes, printed completely, bring back v, r and s. */
  predicate CompactFaithful(v: Byte, s0: Byte) {
    (v == 27 || v == 28) && s0 < 128 && (v == 28 || s0 >= 16)
  }

  lemma CompactOutcome(v: Byte, r: seq<Byte>, s: seq<Byte>, byte32: Byte, d: Result<Signature, SigError>)
    requires |s| == 32 && byte32 == if v % 2 == 0 then SetTopBit(s[0]) else s[0]
    requires byte32 < 16 ==> d.Err?
    requires byte32 >= 16 ==> d.Ok? && d.value.r == r && (d.value.s == s <==> s[0] < 128) &&
                              d.value.v == (if v % 2 == 0 || s[0] >= 128 then 28 else 27)
    ensures d == Ok(Signature(CanonicalV(v), r, s)) <==> CompactFaithful(v, s[0])
  {
  }

  lemma CompactTextRoundTrip(sig0: string, bs: seq<Byte>)
    requires AllHex(sig0) && |sig0| == 130 && bs == Decode(sig0) && |bs| == 65
    ensures RpcSig(Decode(CompactText(sig0, CompactBytes(bs)[32])))
        == Ok(Signature(CanonicalV(bs[64]), bs[..32], bs[32..64]))
      <==> CompactFaithful(bs[64], bs[32])
  {
    var bytes := Decode(CompactText(sig0, CompactBytes(bs)[32]));
    CompactDecodes(sig0, bs);
    CompactBytesDecode(bs);
    assert bs[32..64][0] == bs[32];
    CompactOutcome(bs[64], bs[..32], bs[32..64], CompactBytes(bs)[32], RpcSig(bytes));
  }

  /**
   * Decoding `toVrs(sig).compact` gives back the r, s and v of `toVrs` if and only if v is 27 or 28, s is below
   * 2^255, and the first compact s-byte is not printed with a single digit.
   */
  lemma CompactRoundTripIff(sig: string)
    requires IsSignature65(sig)
    ensures var bs := BytesOf(sig);
      RpcSig(Decode(Skip0x(ToVrs(sig).compact))) == Ok(Signature(ToVrs(sig).v, bs[..32], bs[32..64]))
      <==> CompactFaithful(bs[64], bs[32])
  {
    ToVrsCompact(sig);
    ToVrsParts(sig);
    CompactTextRoundTrip(Skip0x(sig), BytesOf(sig));
  }

  function Body(sig: Signature): seq<Byte>
    requires sig.v < 256
  {
    var last: seq<Byte> := [sig.v];
    sig.r + sig.s + last
  }

  /** The 65-byte text of a decoded signature. */
  function ToText(sig: Signature): string
    requires sig.v < 256
  {
    "0x" + Encode(Body(sig))
  }

  lemma TextBytes(sig: Signature)
    requires sig.v < 256 && |Body(sig)| == 65
    ensures IsSignature65(ToText(sig)) && Skip0x(ToText(sig)) == Encode(Body(sig)) && BytesOf(ToText(sig)) == Body(sig)
  {
    EncodeAll(Body(sig));
    SkipPrefix(Encode(Body(sig)));
  }

  /** Re-encoding a decoded compact form restores it if and only if its byte 32 needs two digits. */
  lemma RecompactIff(bytes: seq<Byte>, sig: Signature)
    requires |bytes| == 64 && RpcSig(bytes) == Ok(sig)
    ensures sig.v < 256 && IsSignature65(ToText(sig))
    ensures ToVrs(ToText(sig)).compact == "0x" + Encode(bytes) <==> bytes[32] >= 16
  {
    CompactUndoesDecode(bytes);
    TextCompact(sig);
    RecompactText(Body(sig), bytes);
    PrefixCancels(ToVrs(ToText(sig)).compact, CompactText(Encode(Body(sig)), bytes[32]), Encode(bytes));
  }

  lemma TextCompact(sig: Signature)
    requires sig.v < 256 && |Body(sig)| == 65
    ensures IsSignature65(ToText(sig)) && AllHex(Encode(Body(sig))) && |Encode(Body(sig))| == 130
    ensures ToVrs(ToText(sig)).compact == "0x" + CompactText(Encode(Body(sig)), CompactBytes(Body(sig))[32])
  {
    TextBytes(sig);
    ToVrsCompact(ToText(sig));
  }

  lemma PrefixCancels(text: string, a: string, b: string)
    requires text == "0x" + a
    ensures text == "0x" + b <==> a == b
  {
    assert ("0x" + a)[2..] == a && ("0x" + b)[2..] == b;
  }

  lemma RecompactText(all: seq<Byte>, bytes: seq<Byte>)
    requires |all| == 65 && CompactBytes(all) == bytes
    ensures |Encode(all)| == 130 && AllHex(Encode(all))
    ensures CompactText(Encode(all), bytes[32]) == Encode(bytes) <==> bytes[32] >= 16
  {
    EncodeAll(all);
    EncodeAll(bytes);
    CompactDecodes(Encode(all), all);
    var c := CompactText(Encode(all), bytes[32]);
    if bytes[32] >= 16 {
      SameBytesSameDigits(c, Encode(bytes));
      assert AllLower(c);
      assert c == Encode(bytes);
    }
  }

  lemma CompactUndoesDecode(bytes: seq<Byte>)
    requires |bytes| == 64
    ensures var sig := RpcSig(bytes).value;
      sig.v < 256 && |Body(sig)| == 65 && CompactBytes(Body(sig)) == bytes
  {
    var all := Body(RpcSig(bytes).value);
    assert all[64] == 27 + bytes[32] / 128 && all[32] == ClearTopBit(bytes[32]);
    assert all[33..64] == bytes[33..64];
    assert all[..32] == bytes[..32];
    assert CompactBytes(all)[32] == bytes[32];
    assert bytes == bytes[..32] + [bytes[32]] + bytes[33..64];
  }

  // ---- fixSignature ----

  function FixText(sig: string): string {
    var buf := Decode(Skip0x(sig));
    if |buf| == 65 && BigEndian(buf[64..]) < 27
    then "0x" + Encode(buf[..32] + buf[32..64] + [BigEndian(buf[64..]) + 27])
    else sig
  }

  lemma LastByte(buf: seq<Byte>)
    requires |buf| == 65
    ensures BigEndian(buf[64..]) == buf[64]
  {
    assert buf[64..] == [buf[64]] && [buf[64]][..0] == [];
    assert BigEndian([]) == 0;
  }

  lemma RpcSig65(buf: seq<Byte>)
    requires |buf| == 65
    ensures RpcSig(buf) == Ok(Signature(CanonicalV(buf[64]), buf[..32], buf[32..64]))
  {
    LastByte(buf);
  }

  /**
   * What a buffer decodes to, by its length. From the 65th byte on everything is v, read as one number, which must be
   * below 2^53; a compact form has its v in the top bit of s.
   */
  lemma RpcSigByLength(bytes: seq<Byte>)
    ensures |bytes| < 64 ==> RpcSig(bytes) == Err(InvalidLength)
    ensures |bytes| == 64 ==>
      RpcSig(bytes) == Ok(Signature(if bytes[32] < 128 then 27 else 28, bytes[..32], [bytes[32] % 128] + bytes[33..64]))
    ensures |bytes| == 65 ==> RpcSig(bytes) == Ok(Signature(CanonicalV(bytes[64]), bytes[..32], bytes[32..64]))
    ensures |bytes| == 66 ==>
      RpcSig(bytes)
        == Ok(Signature(CanonicalV(256 * (bytes[64] as nat) + bytes[65] as nat), bytes[..32], bytes[32..64]))
    ensures |bytes| > 64 ==>
      (RpcSig(bytes).Err? <==> BigEndian(bytes[64..]) >= 9007199254740992) &&
      (RpcSig(bytes).Err? ==> RpcSig(bytes).error == UnsafeInteger)
  {
    if |bytes| == 64 {
      assert Masked(bytes)[32..64] == [ClearTopBit(bytes[32])] + bytes[33..64];
    } else if |bytes| == 65 {
      RpcSig65(bytes);
    } else if |bytes| == 66 {
      TwoBytes(bytes[64], bytes[65]);
      assert bytes[64..] == [bytes[64], bytes[65]];
    }
  }

  lemma TwoBytes(a: Byte, b: Byte)
    ensures BigEndian([a, b]) == 256 * (a as nat) + b as nat
  {
    assert [a, b][..1] == [a] && [a][..0] == [];
    assert BigEndian([a]) == 256 * BigEndian([]) + a;
  }

  predicate NeedsFix(bytes: seq<Byte>) {
    |bytes| == 65 && bytes[64] < 27
  }

  /** Fixing adds 27 to the recovery byte when it is below 27 and rewrites nothing else. */
  lemma FixDecodes(sig: string)
    ensures var buf, text := Decode(Skip0x(sig)), FixText(sig);
      if NeedsFix(buf) then IsSignature65(text) && Decode(Skip0x(text)) == buf[64 := buf[64] + 27] else text == sig
  {
    var buf := Decode(Skip0x(sig));
    if NeedsFix(buf) {
      FixWrites(sig, buf);
      WrittenForm(FixText(sig), buf[64 := buf[64] + 27]);
    } else if |buf| == 65 {
      LastByte(buf);
    }
  }

  lemma FixWrites(sig: string, buf: seq<Byte>)
    requires buf == Decode(Skip0x(sig)) && NeedsFix(buf)
    ensures FixText(sig) == "0x" + Encode(buf[64 := buf[64] + 27])
  {
    LastByte(buf);
    LastReplaced(buf, buf[64] + 27);
  }

  lemma LastReplaced(buf: seq<Byte>, b: Byte)
    requires |buf| == 65
    ensures buf[..32] + buf[32..64] + [b] == buf[64 := b]
  {
  }

  /** For every string: fixing twice is fixing once, and no decoder of buffers can tell the difference. */
  lemma FixIdempotentAndInvisible(sig: string)
    ensures FixText(FixText(sig)) == FixText(sig)
    ensures RpcSig(Decode(Skip0x(FixText(sig)))) == RpcSig(Decode(Skip0x(sig)))
  {
    FixDecodes(sig);
    FixDecodes(FixText(sig));
    var buf := Decode(Skip0x(sig));
    if |buf| == 65 {
      LastByte(buf);
      var fixed := Decode(Skip0x(FixText(sig)));
      LastByte(fixed);
      assert fixed[..32] == buf[..32] && fixed[32..64] == buf[32..64];
    }
  }

  /** `toVrs` sees the same v after fixing, and the same r and s up to the case of the digits. */
  lemma FixInvisibleToVrs(sig: string)
    requires IsSignature65(sig)
    ensures IsSignature65(FixText(sig))
    ensures var t, f := ToVrs(sig), ToVrs(FixText(sig));
      && t.v == f.v
      && Decode(Skip0x(t.r)) == Decode(Skip0x(f.r)) && Decode(Skip0x(t.s)) == Decode(Skip0x(f.s))
      && |t.r| == |f.r| && |t.s| == |f.s|
  {
    FixKeepsForm(sig);
    var buf, fixed := BytesOf(sig), BytesOf(FixText(sig));
    ToVrsParts(sig);
    ToVrsParts(FixText(sig));
    PartsDecode(Skip0x(sig));
    PartsDecode(Skip0x(FixText(sig)));
    assert fixed[..32] == buf[..32] && fixed[32..64] == buf[32..64];
  }

  lemma FixKeepsForm(sig: string)
    requires IsSignature65(sig)
    ensures IsSignature65(FixText(sig))
    ensures BytesOf(FixText(sig)) == BytesOf(sig)[64 := CanonicalV(BytesOf(sig)[64])]
  {
    FixDecodes(sig);
    FixedForm(sig, FixText(sig));
  }

  lemma FixedForm(sig: string, text: string)
    requires IsSignature65(sig)
    requires var buf := Decode(Skip0x(sig));
      if NeedsFix(buf) then IsSignature65(text) && Decode(Skip0x(text)) == buf[64 := buf[64] + 27] else text == sig
    ensures IsSignature65(text) && BytesOf(text) == BytesOf(sig)[64 := CanonicalV(BytesOf(sig)[64])]
  {
    var buf := BytesOf(sig);
    if !NeedsFix(buf) { assert buf[64 := buf[64]] == buf; }
  }

  lemma WrittenForm(text: string, bytes: seq<Byte>)
    requires text == "0x" + Encode(bytes) && |bytes| == 65
    ensures IsSignature65(text) && Decode(Skip0x(text)) == bytes
  {
    EncodeAll(bytes);
    SkipPrefix(Encode(bytes));
  }

  lemma PartsDecode(sig0: string)
    requires AllHex(sig0) && |sig0| == 130
    ensures |Decode(sig0)| == 65
    ensures Decode(Skip0x("0x" + sig0[..64])) == Decode(sig0)[..32]
    ensures Decode(Skip0x("0x" + sig0[64..128])) == Decode(sig0)[32..64]
  {
    DecodeAll(sig0);
    DecodeAll(sig0[..64]);
    DecodeAll(sig0[64..128]);
    assert Skip0x("0x" + sig0[..64]) == sig0[..64] && Skip0x("0x" + sig0[64..128]) == sig0[64..128];
    forall i | 0 <= i < 32 ensures Decode(sig0[64..128])[i] == Decode(sig0)[32 + i] {
      assert sig0[64..128][2 * i] == sig0[2 * (32 + i)] && sig0[64..128][2 * i + 1] == sig0[2 * (32 + i) + 1];
    }
  }

  /**
   * For every 65-byte signature: whether the compact form decodes to what the signature decodes to, before fixing and
   * after. Fixing repairs recovery bytes 0 and 1, whose parity the compact form has wrong.
   */
  lemma FixRepairsCompact(sig: string)
    requires IsSignature65(sig)
    ensures IsSignature65(FixText(sig))
    ensures var v, s0 := BytesOf(sig)[64], BytesOf(sig)[32];
      (RpcSig(Decode(Skip0x(ToVrs(FixText(sig)).compact))) == RpcSig(BytesOf(sig)) <==>
         CompactFaithful(CanonicalV(v), s0)) &&
      (RpcSig(Decode(Skip0x(ToVrs(sig).compact))) == RpcSig(BytesOf(sig)) <==> CompactFaithful(v, s0)) &&
      (CompactFaithful(CanonicalV(v), s0) <==> v in {0, 1, 27, 28} && s0 < 128 && (v in {1, 28} || s0 >= 16))
  {
    FixKeepsForm(sig);
    FixIdempotentAndInvisible(sig);
    CompactAgreesIff(sig);
    CompactAgreesOnceFixed(BytesOf(sig), FixText(sig));
    FaithfulOnceFixed(BytesOf(sig)[64], BytesOf(sig)[32]);
  }

  lemma FaithfulOnceFixed(v: Byte, s0: Byte)
    ensures CompactFaithful(CanonicalV(v), s0) <==> v in {0, 1, 27, 28} && s0 < 128 && (v in {1, 28} || s0 >= 16)
  {
  }

  lemma CompactAgreesOnceFixed(bs: seq<Byte>, fixed: string)
    requires |bs| == 65
    requires IsSignature65(fixed) && BytesOf(fixed) == bs[64 := CanonicalV(bs[64])]
    requires RpcSig(BytesOf(fixed)) == RpcSig(bs)
    ensures RpcSig(Decode(Skip0x(ToVrs(fixed).compact))) == RpcSig(bs) <==> CompactFaithful(CanonicalV(bs[64]), bs[32])
  {
    CompactAgreesIff(fixed);
  }

  lemma CompactAgreesIff(sig: string)
    requires IsSignature65(sig)
    ensures RpcSig(Decode(Skip0x(ToVrs(sig).compact))) == RpcSig(BytesOf(sig))
      <==> CompactFaithful(BytesOf(sig)[64], BytesOf(sig)[32])
  {
    ToVrsCompact(sig);
    CompactTextRoundTrip(Skip0x(sig), BytesOf(sig));
    RpcSig65(BytesOf(sig));
  }

  // ---- hardware wallets ----

  const START := "\U{19}Ethereum Signed Message:\n"

  /** `Buffer.from(s, "ascii")`. */
  function Codes(s: string): seq<Byte> {
    seq(|s|, i requires 0 <= i < |s| => (s[i] as nat) % 256)
  }

  function EthSignedMessageHash(keccak: seq<Byte> -> seq<Byte>, hash: seq<Byte>): seq<Byte> {
    keccak(Codes(START + "32") + hash)
  }

  /** EIP-191, version 0x45, for 32 bytes of data: what is hashed is the prefix, in text or in bytes, and the hash. */
  lemma DigestIsEip191(keccak: seq<Byte> -> seq<Byte>, hash: seq<Byte>)
    ensures EthSignedMessageHash(keccak, hash) == keccak(Codes("\U{19}Ethereum Signed Message:\n32") + hash)
    ensures Codes("\U{19}Ethereum Signed Message:\n32") ==
      [0x19, 0x45, 0x74, 0x68, 0x65, 0x72, 0x65, 0x75, 0x6d, 0x20, 0x53, 0x69, 0x67, 0x6e, 0x65, 0x64, 0x20,
       0x4d, 0x65, 0x73, 0x73, 0x61, 0x67, 0x65, 0x3a, 0x0a, 0x33, 0x32]
  {
    assert START + "32" == "\U{19}Ethereum Signed Message:\n32";
  }

  function FixHashAndV(keccak: seq<Byte> -> seq<Byte>, v: nat, hash: seq<Byte>): Result<(seq<Byte>, nat), SigError> {
    if v == 0 || v == 1 then Ok((hash, 27 + v))
    else if v == 27 || v == 28 then Ok((hash, v))
    else if v == 32 || v == 31 then Ok((EthSignedMessageHash(keccak, hash), v - 4))
    else Err(UnknownV(v))
  }

  /** Six values of v are recognised: two are normalised, two taken as they are, two stand for the prefixed digest. */
  lemma RecognisedIff(keccak: seq<Byte> -> seq<Byte>, v: nat, hash: seq<Byte>)
    ensures var f := FixHashAndV(keccak, v, hash);
      && (f.Ok? <==> v in {0, 1, 27, 28, 31, 32}) && (f.Err? ==> f.error == UnknownV(v))
      && (f.Ok? ==> f.value.1 == (if v in {0, 27, 31} then 27 else 28))
      && (v in {0, 1, 27, 28} ==> f.value.0 == hash)
      && (v in {31, 32} ==> f.value.0 == keccak(Codes("\U{19}Ethereum Signed Message:\n32") + hash))
  {
    DigestIsEip191(keccak, hash);
  }

  /** What `recover` hands to `ecrecover`. */
  datatype RecoverInput = RecoverInput(digest: seq<Byte>, v: nat, r: seq<Byte>, s: seq<Byte>)

  function Recovery(keccak: seq<Byte> -> seq<Byte>, hash: seq<Byte>, bytes: seq<Byte>): Result<RecoverInput, SigError> {
    match RpcSig(bytes)
    case Err(e) => Err(e)
    case Ok(sig) =>
      match FixHashAndV(keccak, sig.v, hash)
      case Err(e) => Err(e)
      case Ok((digest, v)) => Ok(RecoverInput(digest, v, sig.r, sig.s))
  }

  /** The bytes after `signature.writeInt8(signature[64] + 4, 64)`, which throws outside -128..127 or past the end. */
  function Marked(answer: seq<Byte>): Result<seq<Byte>, SigError> {
    if |answer| < 65 || answer[64] > 123 then Err(OutOfRange) else Ok(answer[64 := answer[64] + 4])
  }

  /** The mark adds 4 to byte 64, if there is one and the sum is a signed byte, and touches nothing else. */
  lemma MarkedIff(answer: seq<Byte>)
    ensures Marked(answer).Ok? <==> |answer| > 64 && (answer[64] as int) + 4 <= 127
    ensures Marked(answer).Ok? ==>
      var m := Marked(answer).value;
      && |m| == |answer| && m[64] as int == answer[64] as int + 4
      && forall i :: 0 <= i < |m| && i != 64 ==> m[i] == answer[i]
  {
  }

  /** The hardware path after `eth_sign` has answered, writing into the answer's buffer. */
  method MarkHardware(signature: array<Byte>) returns (r: Result<string, SigError>)
    modifies signature
    ensures match Marked(old(signature[..]))
            case Ok(bytes) => signature[..] == bytes && r == Ok("0x" + Encode(bytes))
            case Err(e) => signature[..] == old(signature[..]) && r == Err(e)
  {
    if signature.Length < 65 || signature[64] > 123 { return Err(OutOfRange); }
    signature[64] := signature[64] + 4;
    return Ok("0x" + Encode(signature[..]));
  }

  /**
   * A hardware wallet's answer of any length, marked and then recovered, is checked against the prefixed digest with
   * its own canonical v if and only if it has 65 bytes and its recovery byte was 0, 1, 27 or 28.
   */
  lemma HardwareRecoversPrefixedIff(keccak: seq<Byte> -> seq<Byte>, hash: seq<Byte>, answer: seq<Byte>)
    ensures var m := Marked(answer);
      (m.Ok? && |answer| >= 65 && Recovery(keccak, hash, Decode(Skip0x("0x" + Encode(m.value))))
        == Ok(RecoverInput(keccak(Codes("\U{19}Ethereum Signed Message:\n32") + hash), CanonicalV(answer[64]),
                           answer[..32], answer[32..64])))
      <==> |answer| == 65 && answer[64] in {0, 1, 27, 28}
    ensures |answer| < 65 ==> Marked(answer) == Err(OutOfRange)
  {
    DigestIsEip191(keccak, hash);
    if |answer| >= 65 && answer[64] <= 123 {
      var m := Marked(answer).value;
      WrittenBytes("0x" + Encode(m), m);
      if |answer| == 65 {
        MarkedRecovers(keccak, hash, answer, answer[64] + 4);
      } else {
        LongIsUnknown(keccak, hash, m);
      }
    }
  }

  lemma WrittenBytes(text: string, bytes: seq<Byte>)
    requires text == "0x" + Encode(bytes)
    ensures Decode(Skip0x(text)) == bytes
  {
    EncodeAll(bytes);
    SkipPrefix(Encode(bytes));
  }

  /** The mark is in the leading byte of a longer v, which is therefore never one that is recognised. */
  lemma LongIsUnknown(keccak: seq<Byte> -> seq<Byte>, hash: seq<Byte>, m: seq<Byte>)
    requires |m| > 65 && m[64] >= 4
    ensures Recovery(keccak, hash, m).Err?
  {
    LeadingByte(m[64..]);
  }

  lemma {:induction false} LeadingByte(bytes: seq<Byte>)
    requires bytes != []
    ensures BigEndian(bytes) >= bytes[0] && (|bytes| > 1 ==> BigEndian(bytes) >= 256 * (bytes[0] as nat))
  {
    if |bytes| > 1 {
      LeadingByte(bytes[..|bytes| - 1]);
    } else {
      assert bytes[..0] == [];
    }
  }

  lemma MarkedRecovers(keccak: seq<Byte> -> seq<Byte>, hash: seq<Byte>, answer: seq<Byte>, v: Byte)
    requires |answer| == 65 && v as int == answer[64] as int + 4
    ensures Recovery(keccak, hash, answer[64 := v])
        == Ok(RecoverInput(EthSignedMessageHash(keccak, hash), CanonicalV(answer[64]), answer[..32], answer[32..64]))
      <==> answer[64] in {0, 1, 27, 28}
  {
    var m := answer[64 := v];
    RpcSig65(m);
    assert m[..32] == answer[..32] && m[32..64] == answer[32..64];
  }

  /** The same answer without the mark is checked against the bare digest, with the same v, r and s. */
  lemma UnmarkedRecoversBare(keccak: seq<Byte> -> seq<Byte>, hash: seq<Byte>, answer: seq<Byte>)
    requires |answer| == 65
    ensures Recovery(keccak, hash, answer)
        == Ok(RecoverInput(hash, CanonicalV(answer[64]), answer[..32], answer[32..64]))
      <==> answer[64] in {0, 1, 27, 28}
    ensures answer[64] in {4, 5, 31, 32} ==>
      Recovery(keccak, hash, answer).Ok? &&
      Recovery(keccak, hash, answer).value.digest == keccak(Codes("\U{19}Ethereum Signed Message:\n32") + hash)
  {
    DigestIsEip191(keccak, hash);
    RpcSig65(answer);
  }
}

/**
 * Base-128 variable-length integers, the encoding `coder.EncodeVarInt` writes
 * for every payload field: seven value bits per byte, least significant group
 * first, the high bit set on every byte except the last. A signed int64 is
 * written as its two's-complement uint64 pattern, so a negative value takes
 * ten bytes. The decoder proves that the encoding is self-delimiting; the
 * core itself never decodes.
 */
module Varint {
  import opened Wrappers
  import opened Numeric

  /** The varint bytes of a non-negative integer. */
  function EncodeUvarint(n: nat): (r: seq<byte>)
    ensures |r| >= 1
    ensures r[|r| - 1] < 0x80
    ensures forall i | 0 <= i < |r| - 1 :: 0x80 <= r[i]
    decreases n
  {
    if n < 0x80 then [n] else [n % 0x80 + 0x80] + EncodeUvarint(n / 0x80)
  }

  /** Reads one varint from the front of `s`; returns its value and the bytes after it. */
  function DecodeUvarint(s: seq<byte>): (r: Option<(nat, seq<byte>)>)
    ensures r.Some? ==> |r.value.1| < |s| && r.value.1 == s[|s| - |r.value.1|..]
    decreases |s|
  {
    if |s| == 0 then None
    else if s[0] < 0x80 then Some((s[0], s[1..]))
    else match DecodeUvarint(s[1..])
      case None => None
      case Some((high, rest)) => Some((s[0] - 0x80 + 0x80 * high, rest))
  }

  /** Reading a varint back from the front of any byte stream recovers the value and leaves the rest untouched. */
  lemma {:induction false} UvarintPrefixDecode(n: nat, rest: seq<byte>)
    ensures DecodeUvarint(EncodeUvarint(n) + rest) == Some((n, rest))
    decreases n
  {
    if n >= 0x80 {
      var tail := EncodeUvarint(n / 0x80);
      var s := EncodeUvarint(n) + rest;
      assert s == [n % 0x80 + 0x80] + (tail + rest);
      assert s[1..] == tail + rest;
      UvarintPrefixDecode(n / 0x80, rest);
    }
  }

  /** 128 to the power k. */
  function Pow128(k: nat): (p: nat)
    ensures p >= 1
  {
    if k == 0 then 1 else 0x80 * Pow128(k - 1)
  }

  /** A value below 128^k takes at most k bytes. */
  lemma {:induction false} UvarintLength(n: nat, k: nat)
    requires 1 <= k
    requires n < Pow128(k)
    ensures |EncodeUvarint(n)| <= k
    decreases k
  {
    if n >= 0x80 {
      assert n / 0x80 < Pow128(k - 1);
      UvarintLength(n / 0x80, k - 1);
    }
  }

  /** `coder.EncodeVarInt`: the varint of the two's-complement bit pattern. */
  function EncodeVarInt(v: int64): seq<byte>
  {
    EncodeUvarint(ToUint64(v))
  }

  /** Reads one int64 varint from the front of `s`; a value wider than 64 bits is rejected. */
  function DecodeVarInt(s: seq<byte>): (r: Option<(int64, seq<byte>)>)
    ensures r.Some? ==> |r.value.1| < |s| && r.value.1 == s[|s| - |r.value.1|..]
  {
    match DecodeUvarint(s)
    case None => None
    case Some((u, rest)) => if u < TWO_TO_THE_64 then Some((FromUint64(u), rest)) else None
  }

  /** Every int64 varint is between one and ten bytes long and ends on its only byte below 0x80. */
  lemma VarIntShape(v: int64)
    ensures 1 <= |EncodeVarInt(v)| <= 10
    ensures forall i | 0 <= i < |EncodeVarInt(v)| :: EncodeVarInt(v)[i] < 0x80 <==> i == |EncodeVarInt(v)| - 1
  {
    assert Pow128(10) == 0x40_0000_0000_0000_0000;
    UvarintLength(ToUint64(v), 10);
  }

  /** The int64 varint is self-delimiting: decoding from the front of any stream recovers exactly `v`. */
  lemma VarIntPrefixDecode(v: int64, rest: seq<byte>)
    ensures DecodeVarInt(EncodeVarInt(v) + rest) == Some((v, rest))
  {
    UvarintPrefixDecode(ToUint64(v), rest);
    Uint64RoundTrip(v, ToUint64(v));
  }

  /** Equal varints come from equal values. */
  lemma VarIntInjective(a: int64, b: int64)
    ensures EncodeVarInt(a) == EncodeVarInt(b) ==> a == b
  {
    VarIntPrefixDecode(a, []);
    VarIntPrefixDecode(b, []);
    assert EncodeVarInt(a) + [] == EncodeVarInt(a);
    assert EncodeVarInt(b) + [] == EncodeVarInt(b);
  }
}

/**
 * The payload encoders `int64Counter`, `int64Latest` and `int64Distribution`:
 * each payload is a fixed-order concatenation of int64 varints. The decoders
 * read a fixed number of sequential varints and prove that each field comes
 * back in its place.
 */
module Payload {
  import opened Wrappers
  import opened Numeric
  import opened Varint

  /** The four fields of an int64 distribution, in wire order. */
  datatype DistributionData = DistributionData(count: int64, sum: int64, min: int64, max: int64)

  /** `int64Counter`: one varint. */
  function Int64Counter(v: int64): seq<byte>
  {
    EncodeVarInt(v)
  }

  /** `int64Latest`: the timestamp in epoch milliseconds, then the value. */
  function Int64Latest(timestampMs: int64, v: int64): seq<byte>
  {
    EncodeVarInt(timestampMs) + EncodeVarInt(v)
  }

  /** `int64Distribution`: count, sum, min, max. */
  function Int64Distribution(d: DistributionData): seq<byte>
  {
    EncodeVarInt(d.count) + EncodeVarInt(d.sum) + EncodeVarInt(d.min) + EncodeVarInt(d.max)
  }

  /** The varints of a list of values, concatenated in order. */
  function EncodeVarInts(xs: seq<int64>): seq<byte>
  {
    if |xs| == 0 then [] else EncodeVarInt(xs[0]) + EncodeVarInts(xs[1..])
  }

  /** Reads exactly `k` sequential varints that make up the whole of `s`. */
  function DecodeVarInts(s: seq<byte>, k: nat): (r: Option<seq<int64>>)
    ensures r.Some? ==> |r.value| == k
    decreases k
  {
    if k == 0 then
      if |s| == 0 then Some([]) else None
    else
      match DecodeVarInt(s)
      case None => None
      case Some((v, rest)) =>
        match DecodeVarInts(rest, k - 1)
        case None => None
        case Some(vs) => Some([v] + vs)
  }

  /** Reading back as many varints as were written recovers the values in order. */
  lemma {:induction false} VarIntsRoundTrip(xs: seq<int64>)
    ensures DecodeVarInts(EncodeVarInts(xs), |xs|) == Some(xs)
    decreases |xs|
  {
    if |xs| > 0 {
      VarIntPrefixDecode(xs[0], EncodeVarInts(xs[1..]));
      VarIntsRoundTrip(xs[1..]);
      assert [xs[0]] + xs[1..] == xs;
    }
  }

  /** Writing a value in front of a list writes its varint in front. */
  lemma EncodeVarIntsCons(x: int64, ys: seq<int64>)
    ensures EncodeVarInts([x] + ys) == EncodeVarInt(x) + EncodeVarInts(ys)
  {
    assert ([x] + ys)[1..] == ys;
  }

  /** Reads a counter payload. */
  function DecodeCounter(s: seq<byte>): Option<int64>
  {
    match DecodeVarInts(s, 1)
    case None => None
    case Some(vs) => Some(vs[0])
  }

  /** Reads a latest-value payload as (timestamp in milliseconds, value). */
  function DecodeLatest(s: seq<byte>): Option<(int64, int64)>
  {
    match DecodeVarInts(s, 2)
    case None => None
    case Some(vs) => Some((vs[0], vs[1]))
  }

  /** Reads a distribution payload. */
  function DecodeDistribution(s: seq<byte>): Option<DistributionData>
  {
    match DecodeVarInts(s, 4)
    case None => None
    case Some(vs) => Some(DistributionData(vs[0], vs[1], vs[2], vs[3]))
  }

  /** A counter payload reads back as its value. */
  lemma CounterRoundTrip(v: int64)
    ensures DecodeCounter(Int64Counter(v)) == Some(v)
  {
    assert Int64Counter(v) == EncodeVarInts([v]);
    VarIntsRoundTrip([v]);
  }

  /** A latest-value payload reads back as the timestamp first, then the value. */
  lemma LatestRoundTrip(timestampMs: int64, v: int64)
    ensures DecodeLatest(Int64Latest(timestampMs, v)) == Some((timestampMs, v))
  {
    var xs := [timestampMs, v];
    EncodeVarIntsCons(v, []);
    EncodeVarIntsCons(timestampMs, [v]);
    assert [timestampMs] + [v] == xs;
    assert Int64Latest(timestampMs, v) == EncodeVarInts(xs);
    VarIntsRoundTrip(xs);
  }

  /** A distribution payload reads back as count, sum, min and max, in that order. */
  lemma DistributionRoundTrip(d: DistributionData)
    ensures DecodeDistribution(Int64Distribution(d)) == Some(d)
  {
    var xs := [d.count, d.sum, d.min, d.max];
    EncodeVarIntsCons(d.max, []);
    EncodeVarIntsCons(d.min, [d.max]);
    EncodeVarIntsCons(d.sum, [d.min, d.max]);
    EncodeVarIntsCons(d.count, [d.sum, d.min, d.max]);
    assert [d.min] + [d.max] == [d.min, d.max];
    assert [d.sum] + [d.min, d.max] == [d.sum, d.min, d.max];
    assert [d.count] + [d.sum, d.min, d.max] == xs;
    assert Int64Distribution(d) == EncodeVarInts(xs);
    VarIntsRoundTrip(xs);
  }

  /** The distribution (3, 30, 5, 15): four one-byte varints in field order, read back unchanged. */
  lemma DistributionExample()
    ensures Int64Distribution(DistributionData(3, 30, 5, 15)) == [3, 30, 5, 15]
    ensures DecodeDistribution([3, 30, 5, 15]) == Some(DistributionData(3, 30, 5, 15))
  {
    var d := DistributionData(3, 30, 5, 15);
    assert EncodeVarInt(3) == [3];
    assert EncodeVarInt(30) == [30];
    assert EncodeVarInt(5) == [5];
    assert EncodeVarInt(15) == [15];
    DistributionRoundTrip(d);
  }

  /** Distinct distributions never share a payload. */
  lemma DistributionInjective(a: DistributionData, b: DistributionData)
    ensures Int64Distribution(a) == Int64Distribution(b) ==> a == b
  {
    DistributionRoundTrip(a);
    DistributionRoundTrip(b);
  }
}

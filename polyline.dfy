/** Google's Encoded Polyline Algorithm Format, as the route builder decodes
    it (decodePolyline in src/screens/RouteTrackingScreen.tsx). Coordinates
    are integers in units of 1e-5 degree. Each value is stored as chunks of
    5 bits, least significant first, one character per chunk (code 63 +
    chunk, plus 32 while more chunks follow); the sign is folded into the
    lowest bit ("zig-zag"); points are stored as differences from the
    previous point. */
module Polyline {

  datatype E5Point = E5Point(lat: int, lng: int)

  /** `t.charCodeAt(i) - 63`. Past the end `charCodeAt` gives NaN; NaN & 0x1f
      is 0 and `NaN >= 0x20` is false, which is what 0 does as well. */
  function Chunk(t: string, i: nat): int {
    if i < |t| then t[i] as int - 63 else 0
  }

  /** The low five bits, `b & 0x1f` (also for a negative b, in two's complement). */
  function Low5(b: int): (r: nat)
    ensures r < 32
  {
    b % 32
  }

  /** One value read from index i (the do-while loop): the accumulated
      number and the index after its last chunk. */
  function ReadValue(t: string, i: nat): (r: (nat, nat))
    ensures r.1 > i
    ensures i <= |t| ==> r.1 <= |t| + 1
    decreases |t| - i
  {
    var b := Chunk(t, i);
    if b >= 32 then
      var rest := ReadValue(t, i + 1);
      (Low5(b) + 32 * rest.0, rest.1)
    else (Low5(b), i + 1)
  }

  /** `(r & 1) ? ~(r >> 1) : r >> 1`. */
  function Unzigzag(r: nat): int {
    if r % 2 == 1 then -(r / 2) - 1 else r / 2
  }

  /** The points decoded from index `index` on, continuing from (lat, lng). */
  function DecodeFrom(t: string, index: nat, lat: int, lng: int): seq<E5Point>
    decreases if index < |t| then |t| - index else 0
  {
    if index >= |t| then []
    else
      var r1 := ReadValue(t, index);
      var lat' := lat + Unzigzag(r1.0);
      var r2 := ReadValue(t, r1.1);
      var lng' := lng + Unzigzag(r2.0);
      [E5Point(lat', lng')] + DecodeFrom(t, r2.1, lat', lng')
  }

  function Decode(t: string): seq<E5Point> {
    DecodeFrom(t, 0, 0, 0)
  }

  // ---------------------------------------------------------------------------
  // The encoder, as the format defines it

  function ZigZag(v: int): nat {
    if v >= 0 then 2 * v else -2 * v - 1
  }

  /** Zig-zag decoding is a bijection between the naturals and the integers. */
  lemma UnzigzagZigZag(v: int)
    ensures Unzigzag(ZigZag(v)) == v
  {
  }

  lemma ZigZagUnzigzag(r: nat)
    ensures ZigZag(Unzigzag(r)) == r
  {
  }

  function EncodeNat(v: nat): (s: string)
    ensures |s| >= 1
    decreases v
  {
    if v < 32 then [(v + 63) as char]
    else [(v % 32 + 32 + 63) as char] + EncodeNat(v / 32)
  }

  function EncodeFrom(pts: seq<E5Point>, lat: int, lng: int): string
    decreases |pts|
  {
    if pts == [] then ""
    else EncodeNat(ZigZag(pts[0].lat - lat)) + EncodeNat(ZigZag(pts[0].lng - lng))
         + EncodeFrom(pts[1..], pts[0].lat, pts[0].lng)
  }

  function Encode(pts: seq<E5Point>): string {
    EncodeFrom(pts, 0, 0)
  }

  /** Reading where an encoded value starts gives the value back and stops
      right after it. */
  lemma {:induction false} ReadEncoded(t: string, i: nat, v: nat)
    requires i + |EncodeNat(v)| <= |t| && t[i..i + |EncodeNat(v)|] == EncodeNat(v)
    ensures ReadValue(t, i) == (v, i + |EncodeNat(v)|)
    decreases v
  {
    var e := EncodeNat(v);
    assert t[i] == e[0];
    if v >= 32 {
      var e' := EncodeNat(v / 32);
      assert t[i + 1..i + 1 + |e'|] == e[1..];
      ReadEncoded(t, i + 1, v / 32);
    }
  }

  lemma ThreeSlices(t: string, i: nat, a: string, b: string, c: string)
    requires i + |a| + |b| + |c| == |t| && t[i..] == a + b + c
    ensures t[i..i + |a|] == a
    ensures t[i + |a|..i + |a| + |b|] == b
    ensures t[i + |a| + |b|..] == c
  {
    assert t[i..i + |a|] == t[i..][..|a|] == (a + b + c)[..|a|];
    assert t[i + |a|..i + |a| + |b|] == t[i..][|a|..|a| + |b|] == (a + b + c)[|a|..|a| + |b|];
    assert t[i + |a| + |b|..] == t[i..][|a| + |b|..] == (a + b + c)[|a| + |b|..];
  }

  /** One step of DecodeFrom, once the two values and where they end are known. */
  lemma DecodeStep(t: string, i: nat, lat: int, lng: int, p: E5Point, j: nat, k: nat)
    requires i < |t| && ReadValue(t, i).1 == j && ReadValue(t, j).1 == k
    requires lat + Unzigzag(ReadValue(t, i).0) == p.lat && lng + Unzigzag(ReadValue(t, j).0) == p.lng
    ensures DecodeFrom(t, i, lat, lng) == [p] + DecodeFrom(t, k, p.lat, p.lng)
  {
  }

  /** Where an encoded tail starts, the first point is decoded, and the
      rest of the text is the encoding of the remaining points. */
  lemma EncodedHead(t: string, i: nat, pts: seq<E5Point>, lat: int, lng: int) returns (k: nat)
    requires pts != []
    requires i + |EncodeFrom(pts, lat, lng)| == |t| && t[i..] == EncodeFrom(pts, lat, lng)
    ensures DecodeFrom(t, i, lat, lng) == [pts[0]] + DecodeFrom(t, k, pts[0].lat, pts[0].lng)
    ensures k + |EncodeFrom(pts[1..], pts[0].lat, pts[0].lng)| == |t|
    ensures t[k..] == EncodeFrom(pts[1..], pts[0].lat, pts[0].lng)
  {
    var p := pts[0];
    var v1, v2 := ZigZag(p.lat - lat), ZigZag(p.lng - lng);
    var e1, e2 := EncodeNat(v1), EncodeNat(v2);
    var rest := EncodeFrom(pts[1..], p.lat, p.lng);
    assert t[i..] == e1 + e2 + rest;
    ThreeSlices(t, i, e1, e2, rest);
    var j := i + |e1|;
    k := j + |e2|;
    ReadEncoded(t, i, v1);
    ReadEncoded(t, j, v2);
    UnzigzagZigZag(p.lat - lat);
    UnzigzagZigZag(p.lng - lng);
    DecodeStep(t, i, lat, lng, p, j, k);
  }

  /** Decoding an encoded tail gives the points back. */
  lemma {:induction false} DecodeEncoded(t: string, i: nat, pts: seq<E5Point>, lat: int, lng: int)
    requires i + |EncodeFrom(pts, lat, lng)| == |t| && t[i..] == EncodeFrom(pts, lat, lng)
    ensures DecodeFrom(t, i, lat, lng) == pts
    decreases |pts|
  {
    if pts != [] {
      var k := EncodedHead(t, i, pts, lat, lng);
      DecodeEncoded(t, k, pts[1..], pts[0].lat, pts[0].lng);
      assert pts == [pts[0]] + pts[1..];
    }
  }

  /** The decoder inverts the encoder. */
  lemma RoundTrip(pts: seq<E5Point>)
    ensures Decode(Encode(pts)) == pts
  {
    DecodeEncoded(Encode(pts), 0, pts, 0, 0);
  }

  /** The empty text has no points. */
  lemma DecodeEmpty()
    ensures Decode("") == []
  {
  }

  /** Every decoded point is the running sum of the differences read so far:
      the k-th point equals the sum of the first k+1 differences. Stated on
      an encoding of consecutive differences. */
  function Sums(deltas: seq<E5Point>, lat: int, lng: int): (r: seq<E5Point>)
    ensures |r| == |deltas|
    decreases |deltas|
  {
    if deltas == [] then []
    else
      var p := E5Point(lat + deltas[0].lat, lng + deltas[0].lng);
      [p] + Sums(deltas[1..], p.lat, p.lng)
  }

  function EncodeDeltas(deltas: seq<E5Point>): string
    decreases |deltas|
  {
    if deltas == [] then ""
    else EncodeNat(ZigZag(deltas[0].lat)) + EncodeNat(ZigZag(deltas[0].lng)) + EncodeDeltas(deltas[1..])
  }

  lemma {:induction false} EncodeDeltasOfSums(deltas: seq<E5Point>, lat: int, lng: int)
    ensures EncodeFrom(Sums(deltas, lat, lng), lat, lng) == EncodeDeltas(deltas)
    decreases |deltas|
  {
    if deltas != [] {
      var p := E5Point(lat + deltas[0].lat, lng + deltas[0].lng);
      assert Sums(deltas, lat, lng)[1..] == Sums(deltas[1..], p.lat, p.lng);
      EncodeDeltasOfSums(deltas[1..], p.lat, p.lng);
    }
  }

  /** Decoding a text of differences gives their running sums, one point per
      (lat, lng) pair. */
  lemma DecodeIsRunningSum(deltas: seq<E5Point>)
    ensures Decode(EncodeDeltas(deltas)) == Sums(deltas, 0, 0)
  {
    EncodeDeltasOfSums(deltas, 0, 0);
    RoundTrip(Sums(deltas, 0, 0));
  }

  // ---------------------------------------------------------------------------
  // The decoder's loops

  /** The do-while loop: chunks are read, and the index advanced, until one
      below 0x20; `result |= (b & 0x1f) << shift` with `shift += 5`. The sum
      below equals the bitwise or because the chunks occupy disjoint bits. */
  lemma ScaleStep(scale: int, low: int, rest: int)
    ensures scale * (low + 32 * rest) == scale * low + (scale * 32) * rest
  {
  }

  method ReadChunks(t: string, start: nat) returns (result: nat, index: nat)
    ensures (result, index) == ReadValue(t, start)
  {
    ghost var total := ReadValue(t, start);
    index := start;
    var b := Chunk(t, index);
    index := index + 1;
    result := Low5(b);
    var scale: nat := 32;  // 2^shift
    while b >= 32
      invariant b >= 32 ==> index <= |t|
      invariant b >= 32 ==> total.0 == result + scale * ReadValue(t, index).0
      invariant b >= 32 ==> total.1 == ReadValue(t, index).1
      invariant b < 32 ==> total == (result, index)
      decreases |t| + 1 - index
    {
      ghost var here := ReadValue(t, index);
      b := Chunk(t, index);
      if b >= 32 {
        ghost var next := ReadValue(t, index + 1);
        assert here == (Low5(b) + 32 * next.0, next.1);
        ScaleStep(scale, Low5(b), next.0);
      } else {
        assert here == (Low5(b), index + 1);
      }
      index := index + 1;
      result := result + scale * Low5(b);
      scale := scale * 32;
    }
  }

  /** decodePolyline without the final division by 1e5. */
  method DecodePolyline(t: string) returns (points: seq<E5Point>)
    ensures points == Decode(t)
  {
    points := [];
    var index: nat, lat, lng := 0, 0, 0;
    while index < |t|
      invariant points + DecodeFrom(t, index, lat, lng) == Decode(t)
      decreases |t| - index
    {
      ghost var start, lat0, lng0 := index, lat, lng;
      var result;
      result, index := ReadChunks(t, index);
      ghost var middle := index;
      var dlat := Unzigzag(result);
      lat := lat + dlat;
      result, index := ReadChunks(t, index);
      var dlng := Unzigzag(result);
      lng := lng + dlng;
      DecodeStep(t, start, lat0, lng0, E5Point(lat, lng), middle, index);
      assert points + DecodeFrom(t, start, lat0, lng0) ==
             (points + [E5Point(lat, lng)]) + DecodeFrom(t, index, lat, lng);
      points := points + [E5Point(lat, lng)];
    }
  }
}

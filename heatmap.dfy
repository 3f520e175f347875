/**
 * The pixel arithmetic of genScript/result_to_heatmap.js. The script paints every result
 * polygon of every tile as one pixel of a 1:10 overview image of the island. A tile's
 * corner, recovered from its file name, fixes a 50 x 50 pixel block, and the polygon's
 * number fixes the pixel inside it. The pixel's colour is the polygon's RGB attribute
 * written as `#rrggbb`.
 */
module Heatmap {
  import opened Js
  import opened Tiles

  /** `minmax`: the south-west and north-east corners of the painted area, in metres. */
  const MinMax: ((int, int), (int, int)) := ((-19500, -9000), (34000, 19500))
  /** `minmaxrange` */
  const MinMaxRange: (int, int) := (53500, 28500)
  /** `minmaxrange1`: the canvas size in pixels, one pixel per 10 m. */
  const CanvasSize: (int, int) := (5350, 2850)

  /** `fileCoords[k] = (fileCoords[k] - minmax[0][k]) / 10` on both parsed coordinates. */
  function PixelOrigin(fileCoords: seq<JsNum>): (JsNum, JsNum) {
    (Scale(Sub(Get(fileCoords, 0), Num(MinMax.0.0 as real))),
     Scale(Sub(Get(fileCoords, 1), Num(MinMax.0.1 as real))))
  }

  /** `v / 10` */
  function Scale(v: JsNum): JsNum {
    if v.Num? then Num(v.value / 10.0) else NaN
  }

  /** `pgon.split('pg')[1]` through `Number`: the polygon's number from its id; NaN when the
      id holds no `pg` (`Number(undefined)`). */
  function PgonNumber(id: string): JsNum {
    var parts := Split(id, "pg");
    if |parts| < 2 then NaN else NumberOf(parts[1])
  }

  /** `(pgon_num % 50, Math.floor(pgon_num / 50))`: the pixel of polygon n within its tile. */
  function PolygonOffset(n: nat): (int, int) {
    (n % 50, n / 50)
  }

  /** `x`, `y`: the painted pixel of polygon n of the tile whose origin is (ox, oy). */
  function PolygonPixel(ox: int, oy: int, n: nat): (int, int) {
    (ox + PolygonOffset(n).0, oy + PolygonOffset(n).1)
  }

  /** The ranges and the canvas follow from `minmax`, and a tile whose file name the
      tiling script wrote lands on a 50-pixel block, inside the canvas when the tile lies
      inside the painted area. */
  lemma {:induction false} TileOriginOnGrid(x: int, y: int)
    requires x % TileSize == 0 && y % TileSize == 0
    requires -100000 < x < 100000 && -100000 < y < 100000
    ensures MinMaxRange == (MinMax.1.0 - MinMax.0.0, MinMax.1.1 - MinMax.0.1)
    ensures CanvasSize == (MinMaxRange.0 / 10, MinMaxRange.1 / 10)
    ensures PixelOrigin(ParseResultFileName(TileFileName(x, y)))
              == (Num((50 * (x / TileSize + 39)) as real), Num((50 * (y / TileSize + 18)) as real))
    ensures MinMax.0.0 <= x < MinMax.1.0 && MinMax.0.1 <= y < MinMax.1.1 ==>
              0 <= 50 * (x / TileSize + 39) && 50 * (x / TileSize + 39) + 50 <= CanvasSize.0 &&
              0 <= 50 * (y / TileSize + 18) && 50 * (y / TileSize + 18) + 50 <= CanvasSize.1
  {
    ResultFileNameRoundTrip(x, y);
    PixelOriginOfCoordinates(x, y);
    if MinMax.0.0 <= x < MinMax.1.0 && MinMax.0.1 <= y < MinMax.1.1 {
      BlockInCanvas(x, MinMax.0.0, MinMax.1.0, 39);
      BlockInCanvas(y, MinMax.0.1, MinMax.1.1, 18);
    }
  }

  /** A tile between the two corners of the painted area has its whole block on the canvas. */
  lemma BlockInCanvas(v: int, lo: int, hi: int, blocks: int)
    requires v % TileSize == 0 && hi % TileSize == 0 && lo == -TileSize * blocks && lo <= v < hi
    ensures 0 <= 50 * (v / TileSize + blocks) && 50 * (v / TileSize + blocks) + 50 <= (hi - lo) / 10
  {
    var a, h := v / TileSize, hi / TileSize;
    assert v == TileSize * a && hi == TileSize * h;
    assert -blocks <= a < h;
    assert (hi - lo) / 10 == 50 * (h + blocks);
  }

  lemma PixelOriginOfCoordinates(x: int, y: int)
    requires x % TileSize == 0 && y % TileSize == 0
    ensures PixelOrigin([Num(x as real), Num(y as real)])
              == (Num((50 * (x / TileSize + 39)) as real), Num((50 * (y / TileSize + 18)) as real))
  {
    var coords := [Num(x as real), Num(y as real)];
    assert Get(coords, 0) == Num(x as real) && Get(coords, 1) == Num(y as real);
    GridPixel(x, MinMax.0.0, 39);
    GridPixel(y, MinMax.0.1, 18);
  }

  /** A multiple of the tile size, shifted by an origin that is a whole number of tiles
      and divided by 10, is a whole number of 50-pixel blocks. */
  lemma GridPixel(v: int, origin: int, blocks: int)
    requires v % TileSize == 0 && origin == -TileSize * blocks
    ensures Scale(Sub(Num(v as real), Num(origin as real))) == Num((50 * (v / TileSize + blocks)) as real)
  {
    var a := v / TileSize;
    assert v == TileSize * a;
    assert v - origin == 10 * (50 * (a + blocks));
    assert (v - origin) as real / 10.0 == (50 * (a + blocks)) as real;
  }

  /** A polygon id `pg<n>` gives back n. */
  lemma PgonNumberOfId(n: nat)
    ensures PgonNumber("pg" + NatToString(n)) == Num(n as real)
  {
    var d := NatToString(n);
    assert "pg" + d == "" + "pg" + d;
    SplitAt("", "pg", d);
    SplitNone(d, "pg");
    IntToStringNumber(n);
  }

  /** Within a tile, polygon numbers below 2500 fill the 50 x 50 block, one pixel each. */
  lemma PolygonOffsetInjective(n: nat, m: nat)
    requires n < 2500 && m < 2500
    ensures 0 <= PolygonOffset(n).0 < 50 && 0 <= PolygonOffset(n).1 < 50
    ensures PolygonOffset(n) == PolygonOffset(m) ==> n == m
  {
    assert n == 50 * (n / 50) + n % 50;
    assert m == 50 * (m / 50) + m % 50;
  }

  /** Two polygons of tiles on the 50-pixel grid share a pixel only when they are the same
      polygon of the same tile. */
  lemma PixelsDistinct(o1: (int, int), n1: nat, o2: (int, int), n2: nat)
    requires o1.0 % 50 == 0 && o1.1 % 50 == 0 && o2.0 % 50 == 0 && o2.1 % 50 == 0
    requires n1 < 2500 && n2 < 2500
    requires PolygonPixel(o1.0, o1.1, n1) == PolygonPixel(o2.0, o2.1, n2)
    ensures o1 == o2 && n1 == n2
  {
    PolygonOffsetInjective(n1, n2);
    PolygonOffsetInjective(n2, n1);
    var p := PolygonPixel(o1.0, o1.1, n1);
    assert o1.0 == p.0 - p.0 % 50 && o2.0 == p.0 - p.0 % 50 by {
      SameBlock(o1.0, PolygonOffset(n1).0, p.0);
      SameBlock(o2.0, PolygonOffset(n2).0, p.0);
    }
    assert o1.1 == p.1 - p.1 % 50 && o2.1 == p.1 - p.1 % 50 by {
      SameBlock(o1.1, PolygonOffset(n1).1, p.1);
      SameBlock(o2.1, PolygonOffset(n2).1, p.1);
    }
  }

  lemma SameBlock(o: int, d: int, p: int)
    requires o % 50 == 0 && 0 <= d < 50 && p == o + d
    ensures o == p - p % 50
  {
    assert p % 50 == d;
  }

  // ---------------------------------------------------------------------------------------------
  // Colours

  /** A lowercase hexadecimal digit, as `Number.prototype.toString(16)` writes it. */
  function HexDigit(d: nat): (c: char)
    requires d < 16
    ensures IsHexDigit(c)
  {
    if d < 10 then (d + '0' as int) as char else (d - 10 + 'a' as int) as char
  }

  predicate IsHexDigit(c: char) {
    '0' <= c <= '9' || 'a' <= c <= 'f'
  }

  /** The value of a hexadecimal digit (0 for any other character). */
  function HexDigitValue(c: char): (d: nat)
    ensures d < 16
  {
    if '0' <= c <= '9' then c as int - '0' as int
    else if 'a' <= c <= 'f' then c as int - 'a' as int + 10
    else 0
  }

  /** `n.toString(16)` for a non-negative integer. */
  function HexNat(n: nat): (s: string)
    ensures 1 <= |s| && forall k :: 0 <= k < |s| ==> IsHexDigit(s[k])
  {
    if n < 16 then [HexDigit(n)] else HexNat(n / 16) + [HexDigit(n % 16)]
  }

  /** `i.toString(16)` */
  function HexString(i: int): string {
    if i < 0 then "-" + HexNat(-i) else HexNat(i)
  }

  /** The value of a string of hexadecimal digits. */
  function HexValue(s: string): nat {
    if |s| == 0 then 0 else 16 * HexValue(s[..|s| - 1]) + HexDigitValue(s[|s| - 1])
  }

  /** The mapping callback: a channel in [0, 1] scaled to [0, 255] and rounded (`Bytes`),
      then written in hexadecimal with a leading `0` below 16 (`ByteHex`). */
  function Bytes(rgb: seq<real>): (bs: seq<int>)
    ensures |bs| == |rgb|
  {
    seq(|rgb|, k requires 0 <= k < |rgb| => Round(rgb[k] * 255.0))
  }

  function ByteHex(val: int): string {
    if val < 16 then "0" + HexString(val) else HexString(val)
  }

  /** `'#' + rgb.map(channel).join('')` */
  function Colour(rgb: seq<real>): string {
    "#" + HexBytes(Bytes(rgb))
  }

  /** The channel strings joined together. */
  function HexBytes(bs: seq<int>): string {
    Join(Channels(bs))
  }

  /** The mapped channels: one string per byte. */
  function Channels(bs: seq<int>): (cs: seq<string>)
    ensures |cs| == |bs|
  {
    seq(|bs|, k requires 0 <= k < |bs| => ByteHex(bs[k]))
  }

  /** `join('')`: the strings one after the other. */
  function Join(cs: seq<string>): string {
    if |cs| == 0 then "" else Join(cs[..|cs| - 1]) + cs[|cs| - 1]
  }

  predicate AllHexDigits(s: string) {
    forall i :: 0 <= i < |s| ==> IsHexDigit(s[i])
  }

  /** The reverse of `Colour`: the byte of each pair of hexadecimal digits after the `#`. */
  function DecodeColour(s: string): Option<seq<int>> {
    if |s| == 0 || s[0] != '#' || |s| % 2 != 1 || !(forall k :: 1 <= k < |s| ==> IsHexDigit(s[k])) then None
    else Some(Pairs(s[1..]))
  }

  /** The value of each pair of hexadecimal digits, in order (the caller checks that the
      length is even). */
  function Pairs(s: string): seq<int> {
    if |s| < 2 then [] else Pairs(s[..|s| - 2]) + [HexValue(s[|s| - 2..])]
  }

  lemma {:induction false} HexNatValue(n: nat)
    ensures HexValue(HexNat(n)) == n
  {
    if n >= 16 {
      HexNatValue(n / 16);
      var s := HexNat(n);
      assert s[..|s| - 1] == HexNat(n / 16);
    }
  }

  /** A byte becomes exactly two lowercase hexadecimal digits holding its value. */
  lemma {:induction false} ByteHexRoundTrip(val: int)
    requires 0 <= val <= 255
    ensures var c := ByteHex(val);
            |c| == 2 && IsHexDigit(c[0]) && IsHexDigit(c[1]) && HexValue(c) == val
  {
    HexNatValue(val);
    if val >= 16 {
      assert HexNat(val) == HexNat(val / 16) + [HexDigit(val % 16)];
      assert val / 16 < 16;
    } else {
      var c := ByteHex(val);
      assert c == "0" + [HexDigit(val)];
      assert c[..1] == "0";
    }
  }

  /** A channel in [0, 1] rounds to a byte. */
  lemma ChannelBytes(rgb: seq<real>)
    requires forall k :: 0 <= k < |rgb| ==> 0.0 <= rgb[k] <= 1.0
    ensures forall k :: 0 <= k < |rgb| ==> 0 <= Bytes(rgb)[k] <= 255
  {
    forall k | 0 <= k < |rgb| ensures 0 <= Bytes(rgb)[k] <= 255 {
      assert 0.0 <= rgb[k] * 255.0 <= 255.0;
    }
  }

  /** The colour string of channels in [0, 1] is `#` and two digits per channel (seven
      characters for an RGB triple), and decoding it gives back the rounded bytes. */
  lemma ColourRoundTrip(rgb: seq<real>)
    requires forall k :: 0 <= k < |rgb| ==> 0.0 <= rgb[k] <= 1.0
    ensures |Colour(rgb)| == 1 + 2 * |rgb| && Colour(rgb)[0] == '#'
    ensures DecodeColour(Colour(rgb)) == Some(Bytes(rgb))
  {
    ChannelBytes(rgb);
    HexBytesRoundTrip(Bytes(rgb));
    HexBytesDigits(Bytes(rgb));
    var s := Colour(rgb);
    assert s[1..] == HexBytes(Bytes(rgb));
  }

  /** The channels of bytes are two hexadecimal digits each, holding the byte. */
  lemma ChannelsOfBytes(bs: seq<int>)
    requires forall k :: 0 <= k < |bs| ==> 0 <= bs[k] <= 255
    ensures forall k :: 0 <= k < |bs| ==>
              |Channels(bs)[k]| == 2 && AllHexDigits(Channels(bs)[k]) && HexValue(Channels(bs)[k]) == bs[k]
  {
    forall k | 0 <= k < |bs|
      ensures |Channels(bs)[k]| == 2 && AllHexDigits(Channels(bs)[k]) && HexValue(Channels(bs)[k]) == bs[k]
    {
      ByteHexRoundTrip(bs[k]);
    }
  }

  lemma HexBytesRoundTrip(bs: seq<int>)
    requires forall k :: 0 <= k < |bs| ==> 0 <= bs[k] <= 255
    ensures |HexBytes(bs)| == 2 * |bs|
    ensures Pairs(HexBytes(bs)) == bs
  {
    var cs := Channels(bs);
    ChannelsOfBytes(bs);
    JoinPairs(cs);
  }

  /** Joining strings of two characters and reading them back in pairs gives the value of
      each string. */
  lemma {:induction false} JoinPairs(cs: seq<string>)
    requires forall k :: 0 <= k < |cs| ==> |cs[k]| == 2
    ensures |Join(cs)| == 2 * |cs|
    ensures |Pairs(Join(cs))| == |cs| && forall k :: 0 <= k < |cs| ==> Pairs(Join(cs))[k] == HexValue(cs[k])
  {
    if |cs| > 0 {
      var n := |cs| - 1;
      var front := cs[..n];
      JoinPairs(front);
      PairsSnoc(Join(front), cs[n]);
      assert Pairs(Join(cs)) == Pairs(Join(front)) + [HexValue(cs[n])];
    }
  }

  lemma PairsSnoc(front: string, c: string)
    requires |c| == 2
    ensures Pairs(front + c) == Pairs(front) + [HexValue(c)]
  {
    var s := front + c;
    assert s[..|s| - 2] == front;
    assert s[|s| - 2..] == c;
  }

  /** Every character after the `#` is a lowercase hexadecimal digit. */
  lemma HexBytesDigits(bs: seq<int>)
    requires forall k :: 0 <= k < |bs| ==> 0 <= bs[k] <= 255
    ensures AllHexDigits(HexBytes(bs))
  {
    ChannelsOfBytes(bs);
    JoinDigits(Channels(bs));
  }

  lemma {:induction false} JoinDigits(cs: seq<string>)
    requires forall k :: 0 <= k < |cs| ==> AllHexDigits(cs[k])
    ensures AllHexDigits(Join(cs))
  {
    if |cs| > 0 {
      var n := |cs| - 1;
      var front, c := Join(cs[..n]), cs[n];
      JoinDigits(cs[..n]);
      var s := front + c;
      forall i | 0 <= i < |s| ensures IsHexDigit(s[i]) {
        if i < |front| {
          assert s[i] == front[i];
        } else {
          assert s[i] == c[i - |front|];
        }
      }
    }
  }
}

/**
 * The tile-naming conventions shared by the batch scripts and the viewer.
 * The city is cut into 500 m tiles, each named by its south-west corner.
 * - The bucketing dictionary of readshp.js keys a tile `x + '__' + y`.
 * - A tile's model file is `data_XXXXX_YYYYY.sim`, with both coordinates zero-padded
 *   by `fillString`. readshp.js and sim_execute.js each hold an identical copy of it.
 * - sim_execute_single.js and result_to_heatmap.js parse that file name back,
 *   each in its own way.
 */
module Tiles {
  import opened Js

  const TileSize: int := 500

  /** `fillString(x)`: the decimal digits of |x| padded with zeros to five characters (only
      the last five are kept), preceded by `-` when x is negative. */
  function FillString(x: int): (s: string)
    ensures 0 <= x < 100000 ==> |s| == 5 && AllDigits(s)
    ensures -100000 < x < 0 ==> |s| == 6 && s[0] == '-' && AllDigits(s[1..])
    ensures forall k :: 0 <= k < |s| ==> IsDigit(s[k]) || s[k] == '-'
  {
    var d := NatToString(if x < 0 then -x else x);
    var tail := ("00000" + d)[|d|..];
    if x < 0 then "-" + tail else tail
  }

  /** Within five digits, the padding only adds zeros in front of the digits. */
  lemma PaddedTail(n: nat)
    requires n < 100000
    ensures var d := NatToString(n);
            |d| <= 5 && ("00000" + d)[|d|..] == Zeros(5 - |d|) + d
  {
    var d := NatToString(n);
    assert Pow10(5) == 100000;
    NatToStringLength(n, 5);
    var t := ("00000" + d)[|d|..];
    assert |t| == 5;
    forall i | 0 <= i < 5 ensures t[i] == (Zeros(5 - |d|) + d)[i] {
      if i < 5 - |d| {
        assert t[i] == '0';
      } else {
        assert t[i] == d[i - (5 - |d|)];
      }
    }
  }

  /** `Number(fillString(x)) == x` for every integer of at most five digits. */
  lemma FillStringNumber(x: int)
    requires -100000 < x < 100000
    ensures NumberOf(FillString(x)) == Num(x as real)
  {
    var n: nat := if x < 0 then -x else x;
    PaddedTail(n);
    PaddedNumber(5 - |NatToString(n)|, n, x < 0);
  }

  /** Six-digit coordinates lose their leading digit: 100000 is written like 0. */
  lemma FillStringTruncates()
    ensures FillString(100000) == FillString(0) == "00000"
  {
    assert NatToString(100000) == "100000" by {
      assert NatToString(1) == "1";
      assert NatToString(10) == "10";
      assert NatToString(100) == "100";
      assert NatToString(1000) == "1000";
      assert NatToString(10000) == "10000";
    }
    assert NatToString(0) == "0";
  }

  /** The model file of the tile whose south-west corner is (x, y). */
  function TileFileName(x: int, y: int): string {
    "data_" + FillString(x) + "_" + FillString(y) + ".sim"
  }

  function NumbersOf(parts: seq<string>): (r: seq<JsNum>)
    ensures |r| == |parts| && forall i :: 0 <= i < |parts| ==> r[i] == NumberOf(parts[i])
  {
    seq(|parts|, i requires 0 <= i < |parts| => NumberOf(parts[i]))
  }

  /** `filename.split('.sim')[0].split('data_')[1].split('_').map(x => Number(x))`; None when
      the name holds no `data_` (the script then fails reading a property of undefined). */
  function ParseSimFileName(name: string): Option<seq<JsNum>> {
    var stem := Split(name, ".sim")[0];
    var afterData := Split(stem, "data_");
    if |afterData| < 2 then None else Some(NumbersOf(Split(afterData[1], "_")))
  }

  /** `s.slice(start, -k)` */
  function SliceDropLast(s: string, start: nat, k: nat): string {
    var end := if |s| >= k then |s| - k else 0;
    if start < end then s[start..end] else ""
  }

  /** `file.slice(5, -4).split('_').map(x => Number(x))` */
  function ParseResultFileName(file: string): seq<JsNum> {
    NumbersOf(Split(SliceDropLast(file, 5, 4), "_"))
  }

  lemma FillStringAvoids(x: int, sep: string)
    requires |sep| > 0 && !IsDigit(sep[0]) && sep[0] != '-'
    ensures Avoids(FillString(x), sep)
  {
  }

  /** The two coordinates joined by `_`, as both parsers see them in the middle of the name. */
  lemma {:induction false} SplitCoordinates(x: int, y: int)
    requires -100000 < x < 100000 && -100000 < y < 100000
    ensures NumbersOf(Split(FillString(x) + "_" + FillString(y), "_")) == [Num(x as real), Num(y as real)]
  {
    var a, b := FillString(x), FillString(y);
    FillStringAvoids(x, "_");
    FillStringAvoids(y, "_");
    SplitAt(a, "_", b);
    SplitNone(b, "_");
    FillStringNumber(x);
    FillStringNumber(y);
  }

  /** sim_execute_single.js recovers the tile corner from the name readshp.js wrote. */
  lemma {:induction false} SimFileNameRoundTrip(x: int, y: int)
    requires -100000 < x < 100000 && -100000 < y < 100000
    ensures ParseSimFileName(TileFileName(x, y)) == Some([Num(x as real), Num(y as real)])
  {
    var mid := FillString(x) + "_" + FillString(y);
    var stem := "data_" + mid;
    MidAvoids(x, y, "data_");
    AfterPrefix(mid, "data_");
    StemAvoids(x, y);
    StemOf(stem, ".sim");
    assert TileFileName(x, y) == stem + ".sim";
    SplitCoordinates(x, y);
  }

  /** The middle `x_y` of a tile name holds only digits, minus signs and the underscore. */
  lemma MidAvoids(x: int, y: int, sep: string)
    requires |sep| > 0 && !IsDigit(sep[0]) && sep[0] != '-' && sep[0] != '_'
    ensures Avoids(FillString(x) + "_" + FillString(y), sep)
  {
    FillStringAvoids(x, sep);
    FillStringAvoids(y, sep);
    AvoidsConcat(FillString(x), "_", sep);
    AvoidsConcat(FillString(x) + "_", FillString(y), sep);
  }

  lemma StemAvoids(x: int, y: int)
    ensures Avoids("data_" + (FillString(x) + "_" + FillString(y)), ".sim")
  {
    MidAvoids(x, y, ".sim");
    AvoidsConcat("data_", FillString(x) + "_" + FillString(y), ".sim");
  }

  lemma AvoidsConcat(s: string, t: string, sep: string)
    requires |sep| > 0
    requires forall k :: 0 <= k < |s| ==> s[k] != sep[0]
    requires forall k :: 0 <= k < |t| ==> t[k] != sep[0]
    ensures Avoids(s + t, sep)
  {
  }

  /** Splitting `stem + suffix` at the suffix leaves the stem first, when the stem avoids it. */
  lemma StemOf(stem: string, suffix: string)
    requires |suffix| > 0 && Avoids(stem, suffix)
    ensures Split(stem + suffix, suffix)[0] == stem
  {
    SplitAt(stem, suffix, "");
    assert stem + suffix + "" == stem + suffix;
  }

  /** Splitting `prefix + rest` at the prefix gives `["", rest]`, when the rest avoids it. */
  lemma AfterPrefix(rest: string, prefix: string)
    requires |prefix| > 0 && Avoids(rest, prefix)
    ensures Split(prefix + rest, prefix) == ["", rest]
  {
    SplitAt("", prefix, rest);
    assert "" + prefix + rest == prefix + rest;
    SplitNone(rest, prefix);
  }

  /** result_to_heatmap.js recovers the tile corner, negative ones included. */
  lemma {:induction false} ResultFileNameRoundTrip(x: int, y: int)
    requires -100000 < x < 100000 && -100000 < y < 100000
    ensures ParseResultFileName(TileFileName(x, y)) == [Num(x as real), Num(y as real)]
  {
    var mid := FillString(x) + "_" + FillString(y);
    var name := TileFileName(x, y);
    assert name == "data_" + mid + ".sim";
    assert SliceDropLast(name, 5, 4) == mid;
    SplitCoordinates(x, y);
  }

  /** The dictionary key of readshp.js: `x + '__' + y`. */
  function TileKey(x: int, y: int): string {
    IntToString(x) + "__" + IntToString(y)
  }

  /** `coord.split('__').map(x => Number(x))` */
  function ParseTileKey(key: string): seq<JsNum> {
    NumbersOf(Split(key, "__"))
  }

  lemma {:induction false} TileKeyRoundTrip(x: int, y: int)
    ensures ParseTileKey(TileKey(x, y)) == [Num(x as real), Num(y as real)]
  {
    IntToStringAvoids(x, "__");
    IntToStringAvoids(y, "__");
    SplitAt(IntToString(x), "__", IntToString(y));
    SplitNone(IntToString(y), "__");
    IntToStringNumber(x);
    IntToStringNumber(y);
  }

  /** Distinct tiles get distinct keys, so a dictionary keyed by these strings behaves as
      one keyed by coordinate pairs. */
  lemma TileKeyInjective(x1: int, y1: int, x2: int, y2: int)
    requires TileKey(x1, y1) == TileKey(x2, y2)
    ensures x1 == x2 && y1 == y2
  {
    TileKeyRoundTrip(x1, y1);
    TileKeyRoundTrip(x2, y2);
  }
}

/**
 * The tiling script genScript/readshp.js. It streams building footprints and drops
 * each one into the 500 m tile of its first vertex, making sure the eight surrounding
 * tiles exist as well. Then, for every tile, it gathers the footprints of the 3x3 block
 * around it into one model file.
 *
 * The script keys its dictionary by the string `x + '__' + y`. Here the key is the
 * pair (x, y); Tiles.TileKeyInjective and Tiles.TileKeyRoundTrip justify the exchange.
 * The projected position of the first vertex (proj4's output) is part of each feature.
 */
module ReadShp {
  import opened Tiles

  /** A footprint read from the shapefile, with its first vertex already projected to metres. */
  datatype Feature = Feature(id: nat, position: (real, real))

  /** `Math.floor(v / TILE_SIZE) * TILE_SIZE`: the south-west corner of the tile holding v. */
  function Corner(v: real): (c: int)
    ensures c % TileSize == 0
    ensures c as real <= v < (c + TileSize) as real
  {
    (v / TileSize as real).Floor * TileSize
  }

  /** `floor_xy`: the corner of the tile a feature falls in. */
  function TileOf(f: Feature): (int, int) {
    (Corner(f.position.0), Corner(f.position.1))
  }

  /** The 3x3 block of tile corners around t, in the order of the scripts' nested loops:
      i (east offset) outer, j (north offset) inner, each running -1, 0, 1. */
  function Nine(t: (int, int)): (r: seq<(int, int)>)
    ensures |r| == 9 && r[4] == t
  {
    var (x, y) := t;
    [(x - TileSize, y - TileSize), (x - TileSize, y), (x - TileSize, y + TileSize),
     (x, y - TileSize), (x, y), (x, y + TileSize),
     (x + TileSize, y - TileSize), (x + TileSize, y), (x + TileSize, y + TileSize)]
  }

  /** The key built in iteration (i, j) of the nested loop. */
  lemma NineAt(t: (int, int), i: int, j: int)
    requires -1 <= i <= 1 && -1 <= j <= 1
    ensures Nine(t)[3 * (i + 1) + (j + 1)] == (t.0 + i * TileSize, t.1 + j * TileSize)
  {
  }

  /** The block holds exactly the tiles at most one tile away in each direction. */
  lemma NineMembership(t: (int, int), k: (int, int))
    requires t.0 % TileSize == 0 && t.1 % TileSize == 0
    ensures k in Nine(t) <==>
              k.0 % TileSize == 0 && k.1 % TileSize == 0 &&
              t.0 - TileSize <= k.0 <= t.0 + TileSize && t.1 - TileSize <= k.1 <= t.1 + TileSize
  {
  }

  /** The tiles listed in keys, as a set. */
  function Elems(keys: seq<(int, int)>): (r: set<(int, int)>)
    ensures forall k :: k in r <==> k in keys
  {
    set m | 0 <= m < |keys| :: keys[m]
  }

  /** Every key that exists once the features fs have been read. */
  function KeysOf(fs: seq<Feature>): set<(int, int)> {
    if |fs| == 0 then {} else KeysOf(fs[..|fs| - 1]) + Elems(Nine(TileOf(fs[|fs| - 1])))
  }

  /** The bucket of tile k once the features fs have been read: the features of that tile,
      in reading order. */
  function Bucket(fs: seq<Feature>, k: (int, int)): seq<Feature> {
    if |fs| == 0 then []
    else Bucket(fs[..|fs| - 1], k) + if TileOf(fs[|fs| - 1]) == k then [fs[|fs| - 1]] else []
  }

  /** The dictionary `geom` of `readSource`, filled in place. */
  class TileIndex {
    var geom: map<(int, int), seq<Feature>>
    ghost var added: seq<Feature>

    /** Its keys and buckets are those determined by the features read so far. */
    ghost predicate Valid()
      reads this
    {
      && geom.Keys == KeysOf(added)
      && forall k :: k in geom ==> geom[k] == Bucket(added, k)
    }

    constructor()
      ensures Valid() && added == [] && geom == map[]
    {
      geom := map[];
      added := [];
    }

    /** The body of the read loop for one feature: create the missing keys of the 3x3 block
        around its tile as empty lists, then push the feature onto its own tile's list. */
    method Add(f: Feature)
      requires Valid()
      modifies this
      ensures Valid() && added == old(added) + [f]
      ensures geom.Keys == old(geom.Keys) + Elems(Nine(TileOf(f)))
      ensures geom[TileOf(f)] == (if TileOf(f) in old(geom) then old(geom[TileOf(f)]) else []) + [f]
      ensures forall k :: k in old(geom) && k != TileOf(f) ==> geom[k] == old(geom[k])
    {
      var t := TileOf(f);
      CreateBlock(t);
      geom := geom[t := geom[t] + [f]];
      ghost var before := added;
      added := added + [f];
      assert added[..|added| - 1] == before;
      forall k | k in geom ensures geom[k] == Bucket(added, k) {
        if k !in old(geom) {
          BucketOutside(before, k);
        }
      }
    }

    /** The nested loop that creates the missing keys of the 3x3 block around t. */
    method CreateBlock(t: (int, int))
      modifies this
      ensures geom.Keys == old(geom.Keys) + Elems(Nine(t))
      ensures forall k :: k in old(geom) ==> geom[k] == old(geom[k])
      ensures forall k :: k in geom && k !in old(geom) ==> geom[k] == []
      ensures added == old(added)
    {
      var i := -1;
      while i <= 1
        invariant -1 <= i <= 2
        invariant forall k :: k in geom <==> k in old(geom) || k in Nine(t)[..3 * (i + 1)]
        invariant forall k :: k in old(geom) ==> geom[k] == old(geom[k])
        invariant forall k :: k in geom && k !in old(geom) ==> geom[k] == []
        invariant added == old(added)
      {
        var j := -1;
        while j <= 1
          invariant -1 <= j <= 2
          invariant forall k :: k in geom <==> k in old(geom) || k in Nine(t)[..3 * (i + 1) + (j + 1)]
          invariant forall k :: k in old(geom) ==> geom[k] == old(geom[k])
          invariant forall k :: k in geom && k !in old(geom) ==> geom[k] == []
          invariant added == old(added)
        {
          var key := (t.0 + i * TileSize, t.1 + j * TileSize);
          NineAt(t, i, j);
          assert Nine(t)[..3 * (i + 1) + (j + 1) + 1] == Nine(t)[..3 * (i + 1) + (j + 1)] + [key];
          if key !in geom {
            geom := geom[key := []];
          }
          j := j + 1;
        }
        i := i + 1;
      }
      assert Nine(t)[..9] == Nine(t);
    }
  }

  /** A tile with no key has an empty bucket. */
  lemma {:induction false} BucketOutside(fs: seq<Feature>, k: (int, int))
    requires k !in KeysOf(fs)
    ensures Bucket(fs, k) == []
  {
    if |fs| > 0 {
      BucketOutside(fs[..|fs| - 1], k);
      assert Nine(TileOf(fs[|fs| - 1]))[4] == TileOf(fs[|fs| - 1]);
    }
  }

  /** Each feature lands in exactly one bucket: the one of its own tile. */
  lemma {:induction false} BucketMembership(fs: seq<Feature>, k: (int, int), f: Feature)
    ensures f in Bucket(fs, k) <==> f in fs && TileOf(f) == k
  {
    if |fs| > 0 {
      BucketMembership(fs[..|fs| - 1], k, f);
      assert fs == fs[..|fs| - 1] + [fs[|fs| - 1]];
    }
  }

  /** The push never targets a missing key: a feature's own tile is a key. */
  lemma {:induction false} OwnTileIsKey(fs: seq<Feature>, f: Feature)
    requires f in fs
    ensures TileOf(f) in KeysOf(fs)
  {
    var n := |fs| - 1;
    if fs[n] == f {
      assert Nine(TileOf(f))[4] == TileOf(f);
    } else {
      assert fs == fs[..n] + [fs[n]];
      OwnTileIsKey(fs[..n], f);
    }
  }

  /** Keys arise only within one tile of some feature's tile, and all are multiples of 500. */
  lemma {:induction false} KeysNearFeatures(fs: seq<Feature>, k: (int, int))
    ensures k in KeysOf(fs) <==> exists f :: f in fs && k in Nine(TileOf(f))
    ensures k in KeysOf(fs) ==> k.0 % TileSize == 0 && k.1 % TileSize == 0
  {
    if |fs| > 0 {
      var n := |fs| - 1;
      KeysNearFeatures(fs[..n], k);
      assert fs == fs[..n] + [fs[n]];
      if k in KeysOf(fs) && k !in KeysOf(fs[..n]) {
        NineMembership(TileOf(fs[n]), k);
      }
    }
  }

  /** Buckets never lose features: reading more only appends to them. */
  lemma {:induction false} BucketsGrow(fs: seq<Feature>, gs: seq<Feature>, k: (int, int))
    ensures Bucket(fs, k) <= Bucket(fs + gs, k)
    ensures KeysOf(fs) <= KeysOf(fs + gs)
    decreases |gs|
  {
    if |gs| > 0 {
      var n := |gs| - 1;
      BucketsGrow(fs, gs[..n], k);
      AppendLast(fs, gs);
      ReadOneMore(fs + gs[..n], gs[n], k);
    } else {
      assert fs + gs == fs;
    }
  }

  lemma AppendLast(fs: seq<Feature>, gs: seq<Feature>)
    requires |gs| > 0
    ensures fs + gs == (fs + gs[..|gs| - 1]) + [gs[|gs| - 1]]
  {
  }

  /** Reading one more feature appends it to its own bucket and adds its block's keys. */
  lemma ReadOneMore(fs: seq<Feature>, f: Feature, k: (int, int))
    ensures Bucket(fs + [f], k) == Bucket(fs, k) + if TileOf(f) == k then [f] else []
    ensures KeysOf(fs + [f]) == KeysOf(fs) + Elems(Nine(TileOf(f)))
  {
    assert (fs + [f])[..|fs|] == fs;
  }

  /** `readSource`'s read loop. */
  method ReadFeatures(features: seq<Feature>) returns (index: TileIndex)
    ensures fresh(index) && index.Valid() && index.added == features
  {
    index := new TileIndex();
    var n := 0;
    while n < |features|
      invariant 0 <= n <= |features|
      invariant index.Valid() && index.added == features[..n]
    {
      index.Add(features[n]);
      TakeOneMore(features, n);
      n := n + 1;
    }
    assert features[..n] == features;
  }

  lemma TakeOneMore(fs: seq<Feature>, n: nat)
    requires n < |fs|
    ensures fs[..n + 1] == fs[..n] + [fs[n]]
  {
  }

  /** The concatenation of the buckets of the existing keys among keys, in order. */
  function Gathered(geom: map<(int, int), seq<Feature>>, keys: seq<(int, int)>): seq<Feature> {
    if |keys| == 0 then []
    else
      var k := keys[|keys| - 1];
      Gathered(geom, keys[..|keys| - 1]) + if k in geom then geom[k] else []
  }

  /** The nested loop of `processData`: concatenate the features of the 3x3 block around
      tile c, skipping tiles without a key. */
  method Gather(geom: map<(int, int), seq<Feature>>, c: (int, int)) returns (features: seq<Feature>)
    ensures features == Gathered(geom, Nine(c))
  {
    features := [];
    var i := -1;
    while i <= 1
      invariant -1 <= i <= 2
      invariant features == Gathered(geom, Nine(c)[..3 * (i + 1)])
    {
      var j := -1;
      while j <= 1
        invariant -1 <= j <= 2
        invariant features == Gathered(geom, Nine(c)[..3 * (i + 1) + (j + 1)])
      {
        var key := (c.0 + i * TileSize, c.1 + j * TileSize);
        NineAt(c, i, j);
        ghost var m := 3 * (i + 1) + (j + 1);
        assert Nine(c)[..m + 1][..m] == Nine(c)[..m];
        if key in geom {
          features := features + geom[key];
        }
        j := j + 1;
      }
      i := i + 1;
    }
    assert Nine(c)[..9] == Nine(c);
  }

  /** In an index built from fs, gathering over a list of tiles yields exactly the features
      of fs whose tile is in the list. */
  lemma {:induction false} GatheredMembership(geom: map<(int, int), seq<Feature>>, fs: seq<Feature>, keys: seq<(int, int)>, f: Feature)
    requires geom.Keys == KeysOf(fs) && forall k :: k in geom ==> geom[k] == Bucket(fs, k)
    ensures f in Gathered(geom, keys) <==> f in fs && TileOf(f) in keys
  {
    if |keys| > 0 {
      var n := |keys| - 1;
      var k := keys[n];
      GatheredMembership(geom, fs, keys[..n], f);
      assert keys == keys[..n] + [k];
      if k in geom {
        BucketMembership(fs, k, f);
      } else if f in fs {
        OwnTileIsKey(fs, f);
      }
    }
  }

  /** The model of tile c holds exactly the features within one tile of it. */
  lemma TileModelContents(index: TileIndex, c: (int, int), f: Feature)
    requires index.Valid() && c.0 % TileSize == 0 && c.1 % TileSize == 0
    ensures f in Gathered(index.geom, Nine(c)) <==>
              f in index.added &&
              c.0 - TileSize <= TileOf(f).0 <= c.0 + TileSize && c.1 - TileSize <= TileOf(f).1 <= c.1 + TileSize
  {
    GatheredMembership(index.geom, index.added, Nine(c), f);
    NineMembership(c, TileOf(f));
  }

  /** `processData` for the key of tile c: the features it imports and the file it writes.
      The key string parses back to c (Tiles.TileKeyRoundTrip). */
  method ProcessData(geom: map<(int, int), seq<Feature>>, c: (int, int)) returns (path: string, features: seq<Feature>)
    ensures path == "src/assets/simdata/" + TileFileName(c.0, c.1)
    ensures features == Gathered(geom, Nine(c))
  {
    features := Gather(geom, c);
    path := "src/assets/simdata/data_" + FillString(c.0) + "_" + FillString(c.1) + ".sim";
  }

  /** `readSource`: read every feature, then process every key. */
  method ReadSource(features: seq<Feature>) returns (index: TileIndex, outputs: map<(int, int), (string, seq<Feature>)>)
    ensures fresh(index) && index.Valid() && index.added == features
    ensures outputs.Keys == index.geom.Keys
    ensures forall c :: c in outputs ==>
              outputs[c] == ("src/assets/simdata/" + TileFileName(c.0, c.1), Gathered(index.geom, Nine(c)))
  {
    index := ReadFeatures(features);
    outputs := ProcessAll(index.geom);
  }

  /** The loop of `readSource` over the keys of `geom`. The outputs are indexed by tile; the
      order in which the script writes the files is not modelled. */
  method ProcessAll(geom: map<(int, int), seq<Feature>>) returns (outputs: map<(int, int), (string, seq<Feature>)>)
    ensures outputs.Keys == geom.Keys
    ensures forall c :: c in outputs ==>
              outputs[c] == ("src/assets/simdata/" + TileFileName(c.0, c.1), Gathered(geom, Nine(c)))
  {
    var remaining := geom.Keys;
    outputs := map[];
    while remaining != {}
      invariant remaining <= geom.Keys
      invariant outputs.Keys == geom.Keys - remaining
      invariant forall c :: c in outputs ==>
                  outputs[c] == ("src/assets/simdata/" + TileFileName(c.0, c.1), Gathered(geom, Nine(c)))
      decreases remaining
    {
      var c :| c in remaining;
      var path, gathered := ProcessData(geom, c);
      outputs := outputs[c := (path, gathered)];
      remaining := remaining - {c};
    }
  }
}

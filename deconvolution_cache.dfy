/** The deconvolution pipeline of the lattice light-sheet demo: one deconvolution
    operation per time point, and a processor that builds the cached, cell-wise
    deconvolved image of a (time point, level) pair once and hands out the stored
    image on every later request. */
module DeconvolutionCache {

  /** `deconvolveBuilder.rai(input).build()`: an operation bound to its input image. */
  datatype Op<R> = Op(input: R)

  /** Builds the list `ops`: entry `t` is the operation on the level-0 image of
      time point `t`, for `t` from 0 up to `numTimepoints - 1`. */
  method BuildOps<R>(numTimepoints: int, levelZero: int -> R) returns (ops: seq<Op<R>>)
    ensures |ops| == if numTimepoints < 0 then 0 else numTimepoints
    ensures forall t :: 0 <= t < |ops| ==> ops[t] == Op(levelZero(t))
  {
    ops := [];
    var t := 0;
    while t < numTimepoints
      invariant 0 <= t <= if numTimepoints < 0 then 0 else numTimepoints
      invariant |ops| == t
      invariant forall i :: 0 <= i < t ==> ops[i] == Op(levelZero(i))
    {
      ops := ops + [Op(levelZero(t))];
      t := t + 1;
    }
  }

  /** An input image, known by its dimensions. */
  datatype Interval = Interval(dimensions: seq<int>)

  /** `new CellGrid(dimensions, cellDimensions)`. */
  datatype CellGrid = CellGrid(dimensions: seq<int>, cellDimensions: seq<int>)

  /** A lazily loaded cell image whose cells the operation of `timepoint` fills. */
  datatype CachedImg = CachedImg(grid: CellGrid, timepoint: int, level: int)

  /** `buildSource(rai, t, level)`. That the table calls it at most once per pair
      is proved in `ProcessBuildsOnce`. */
  function BuildSource(rai: Interval, t: int, level: int, cellDimensions: seq<int>): (img: CachedImg)
    ensures img.grid.dimensions == rai.dimensions && img.grid.cellDimensions == cellDimensions
    ensures img.timepoint == t && img.level == level
  {
    CachedImg(CellGrid(rai.dimensions, cellDimensions), t, level)
  }

  type Cache = map<int, map<int, CachedImg>>

  predicate Cached(cache: Cache, t: int, level: int) {
    t in cache && level in cache[t]
  }

  /** The table after `process(rai, t, level)`: an empty inner map is added for a
      new time point, then an image is built for a new level. */
  function AfterProcess(cache: Cache, rai: Interval, t: int, level: int, cellDimensions: seq<int>): (c: Cache)
  {
    var inner := if t in cache then cache[t] else map[];
    if level in inner then cache[t := inner]
    else cache[t := inner[level := BuildSource(rai, t, level, cellDimensions)]]
  }

  /** After the call the pair is cached, and it holds the stored image when there
      was one and otherwise the image built from `rai`. */
  lemma ProcessStores(cache: Cache, rai: Interval, t: int, level: int, cellDimensions: seq<int>)
    ensures var c := AfterProcess(cache, rai, t, level, cellDimensions);
            Cached(c, t, level)
            && c[t][level] == if Cached(cache, t, level) then cache[t][level]
                              else BuildSource(rai, t, level, cellDimensions)
  {
  }

  /** Every other pair keeps its entry, and no other pair appears. */
  lemma ProcessKeepsOthers(cache: Cache, rai: Interval, t: int, level: int, cellDimensions: seq<int>,
                           t': int, level': int)
    requires (t', level') != (t, level)
    ensures var c := AfterProcess(cache, rai, t, level, cellDimensions);
            Cached(c, t', level') == Cached(cache, t', level')
            && (Cached(cache, t', level') ==> c[t'][level'] == cache[t'][level'])
  {
  }

  /** A hit changes nothing. */
  lemma ProcessHit(cache: Cache, rai: Interval, t: int, level: int, cellDimensions: seq<int>)
    requires Cached(cache, t, level)
    ensures AfterProcess(cache, rai, t, level, cellDimensions) == cache
  {
    assert cache[t := cache[t]] == cache;
  }

  /** A second call for the same pair returns the first call's image, whatever
      image it is given, and leaves the table as the first call left it. */
  lemma ProcessIdempotent(cache: Cache, rai: Interval, rai': Interval, t: int, level: int, cellDimensions: seq<int>)
    ensures var c := AfterProcess(cache, rai, t, level, cellDimensions);
            AfterProcess(c, rai', t, level, cellDimensions) == c
  {
    var c := AfterProcess(cache, rai, t, level, cellDimensions);
    ProcessStores(cache, rai, t, level, cellDimensions);
    ProcessHit(c, rai', t, level, cellDimensions);
  }

  /** `builds` lists each built pair once, and lists exactly the cached pairs, each
      of which holds an image built for it with the processor's cell dimensions. */
  ghost predicate BuiltOnce(cache: Cache, builds: seq<(int, int)>, cellDimensions: seq<int>) {
    (forall i, j :: 0 <= i < j < |builds| ==> builds[i] != builds[j])
    && (forall i :: 0 <= i < |builds| ==> Cached(cache, builds[i].0, builds[i].1))
    && (forall t, level :: Cached(cache, t, level) ==> (t, level) in builds)
    && (forall t, level :: Cached(cache, t, level) ==>
          cache[t][level].timepoint == t && cache[t][level].level == level
          && cache[t][level].grid.cellDimensions == cellDimensions)
  }

  /** `process` keeps that bookkeeping, recording a build only on a miss. */
  lemma ProcessBuildsOnce(cache: Cache, builds: seq<(int, int)>, cellDimensions: seq<int>,
                          rai: Interval, t: int, level: int)
    requires BuiltOnce(cache, builds, cellDimensions)
    ensures BuiltOnce(AfterProcess(cache, rai, t, level, cellDimensions),
                      if Cached(cache, t, level) then builds else builds + [(t, level)], cellDimensions)
  {
    var c := AfterProcess(cache, rai, t, level, cellDimensions);
    var b := if Cached(cache, t, level) then builds else builds + [(t, level)];
    forall t', level' | Cached(c, t', level')
      ensures (t', level') in b
      ensures c[t'][level'].timepoint == t' && c[t'][level'].level == level'
      ensures c[t'][level'].grid.cellDimensions == cellDimensions
    {
      if (t', level') != (t, level) {
        ProcessKeepsOthers(cache, rai, t, level, cellDimensions, t', level');
      } else {
        ProcessStores(cache, rai, t, level, cellDimensions);
      }
    }
    forall i | 0 <= i < |b|
      ensures Cached(c, b[i].0, b[i].1)
    {
      if b[i] != (t, level) {
        ProcessKeepsOthers(cache, rai, t, level, cellDimensions, b[i].0, b[i].1);
      } else {
        ProcessStores(cache, rai, t, level, cellDimensions);
      }
    }
  }

  /** The processor of `getDeconvolved`, with its table `cachedRAIs`. */
  class Deconvolver {
    const cellDimensions: seq<int>
    var cachedRAIs: Cache
    /** The pairs `buildSource` ran for, in order. */
    ghost var builds: seq<(int, int)>

    ghost predicate Valid()
      reads this
    {
      BuiltOnce(cachedRAIs, builds, cellDimensions)
    }

    constructor (cellDimensions: seq<int>)
      ensures Valid() && this.cellDimensions == cellDimensions
      ensures cachedRAIs == map[] && builds == []
    {
      this.cellDimensions := cellDimensions;
      cachedRAIs := map[];
      builds := [];
    }

    /** `process(rai, t, level)`. */
    method Process(rai: Interval, t: int, level: int) returns (img: CachedImg)
      requires Valid()
      modifies this
      ensures Valid()
      ensures cachedRAIs == AfterProcess(old(cachedRAIs), rai, t, level, cellDimensions)
      ensures Cached(cachedRAIs, t, level) && img == cachedRAIs[t][level]
      ensures Cached(old(cachedRAIs), t, level) ==> img == old(cachedRAIs)[t][level] && builds == old(builds)
      ensures !Cached(old(cachedRAIs), t, level) ==>
                img == BuildSource(rai, t, level, cellDimensions) && builds == old(builds) + [(t, level)]
    {
      ProcessBuildsOnce(cachedRAIs, builds, cellDimensions, rai, t, level);
      ProcessStores(cachedRAIs, rai, t, level, cellDimensions);
      ghost var after := AfterProcess(cachedRAIs, rai, t, level, cellDimensions);
      if t !in cachedRAIs {
        cachedRAIs := cachedRAIs[t := map[]];
      }
      if level !in cachedRAIs[t] {
        cachedRAIs := cachedRAIs[t := cachedRAIs[t][level := BuildSource(rai, t, level, cellDimensions)]];
        builds := builds + [(t, level)];
      }
      assert cachedRAIs == after;
      img := cachedRAIs[t][level];
    }
  }
}

/** A source wrapper that exposes a chosen list of resolution levels of another
    source: level `i` of the wrapper is level `tgtToSrc[i]` of the origin, and
    everything that does not depend on the level is passed through. */
module ReIndexedPyramid {
  import opened Wrappers
  import opened Images

  /** A viewer source seen through its methods; `I` is the type of its level
      images and `R` the type of its interpolated views. */
  datatype Source<I, R> = Source(
    isPresent: int -> bool,
    getSource: (int, int) -> Result<I>,
    getInterpolatedSource: (int, int, Interpolation) -> Result<R>,
    getSourceTransform: (int, int) -> Result<AffineTransform3D>,
    pixelType: PixelType,
    name: string,
    voxelDimensions: VoxelDimensions,
    numMipmapLevels: int)

  /** `tgtToSrc.get(level)`: fails outside 0 .. size-1. */
  function SourceLevel(tgtToSrc: seq<int>, level: int): (r: Result<int>)
    ensures r.Success? <==> 0 <= level < |tgtToSrc|
    ensures r.Success? ==> r.value == tgtToSrc[level]
  {
    if 0 <= level < |tgtToSrc| then Success(tgtToSrc[level]) else Failure(IndexOutOfBounds)
  }

  /** `new ReIndexedPyramidSource(origin, tgtToSrc)`. */
  function ReIndexed<I, R>(origin: Source<I, R>, tgtToSrc: seq<int>): (s: Source<I, R>)
    ensures s.numMipmapLevels == |tgtToSrc|
    ensures s.pixelType == origin.pixelType && s.name == origin.name
    ensures s.voxelDimensions == origin.voxelDimensions
    ensures forall t :: s.isPresent(t) == origin.isPresent(t)
  {
    Source(
      origin.isPresent,
      (t: int, level: int) =>
        match SourceLevel(tgtToSrc, level)
        case Failure(e) => Failure(e)
        case Success(src) => origin.getSource(t, src),
      (t: int, level: int, m: Interpolation) =>
        match SourceLevel(tgtToSrc, level)
        case Failure(e) => Failure(e)
        case Success(src) => origin.getInterpolatedSource(t, src, m),
      (t: int, level: int) =>
        match SourceLevel(tgtToSrc, level)
        case Failure(e) => Failure(e)
        case Success(src) => origin.getSourceTransform(t, src),
      origin.pixelType,
      origin.name,
      origin.voxelDimensions,
      |tgtToSrc|)
  }

  /** Every level-dependent query of the wrapper is the origin's query at the
      remapped level, with `t` and the interpolation passed through; a level outside
      0 .. size-1 fails as `List.get` does. */
  lemma ReIndexedLevel<I, R>(origin: Source<I, R>, tgtToSrc: seq<int>, t: int, level: int, m: Interpolation)
    ensures var s := ReIndexed(origin, tgtToSrc);
      && s.getSource(t, level) ==
           (if 0 <= level < |tgtToSrc| then origin.getSource(t, tgtToSrc[level]) else Failure(IndexOutOfBounds))
      && s.getInterpolatedSource(t, level, m) ==
           (if 0 <= level < |tgtToSrc| then origin.getInterpolatedSource(t, tgtToSrc[level], m)
            else Failure(IndexOutOfBounds))
      && s.getSourceTransform(t, level) ==
           (if 0 <= level < |tgtToSrc| then origin.getSourceTransform(t, tgtToSrc[level])
            else Failure(IndexOutOfBounds))
  {
    var src := SourceLevel(tgtToSrc, level);
  }

  /** Two sources answer every level-dependent query alike on the first `n` levels,
      and every level-independent query alike. */
  ghost predicate SameOnLevels<I, R>(a: Source<I, R>, b: Source<I, R>, n: int) {
    a.pixelType == b.pixelType && a.name == b.name && a.voxelDimensions == b.voxelDimensions
    && (forall t :: a.isPresent(t) == b.isPresent(t))
    && (forall t, level | 0 <= level < n :: a.getSource(t, level) == b.getSource(t, level))
    && (forall t, level, m | 0 <= level < n ::
          a.getInterpolatedSource(t, level, m) == b.getInterpolatedSource(t, level, m))
    && (forall t, level | 0 <= level < n :: a.getSourceTransform(t, level) == b.getSourceTransform(t, level))
  }

  /** Level `i` of the composed mapping is level `outer[inner[i]]`. */
  function Compose(outer: seq<int>, inner: seq<int>): (c: seq<int>)
    requires forall i :: 0 <= i < |inner| ==> 0 <= inner[i] < |outer|
    ensures |c| == |inner|
    ensures forall i :: 0 <= i < |inner| ==> c[i] == outer[inner[i]]
  {
    seq(|inner|, i requires 0 <= i < |inner| => outer[inner[i]])
  }

  /** Wrapping a wrapper is wrapping once with the composed mapping. */
  lemma ReIndexedTwice<I, R>(origin: Source<I, R>, outer: seq<int>, inner: seq<int>)
    requires forall i :: 0 <= i < |inner| ==> 0 <= inner[i] < |outer|
    ensures var twice := ReIndexed(ReIndexed(origin, outer), inner);
            var once := ReIndexed(origin, Compose(outer, inner));
            twice.numMipmapLevels == once.numMipmapLevels && SameOnLevels(twice, once, |inner|)
  {
    var twice := ReIndexed(ReIndexed(origin, outer), inner);
    var once := ReIndexed(origin, Compose(outer, inner));
    forall t, level | 0 <= level < |inner|
      ensures twice.getSource(t, level) == once.getSource(t, level)
      ensures twice.getSourceTransform(t, level) == once.getSourceTransform(t, level)
    {
      ReIndexedLevel(ReIndexed(origin, outer), inner, t, level, NearestNeighbor);
      ReIndexedLevel(origin, outer, t, inner[level], NearestNeighbor);
      ReIndexedLevel(origin, Compose(outer, inner), t, level, NearestNeighbor);
    }
    forall t, level, m | 0 <= level < |inner|
      ensures twice.getInterpolatedSource(t, level, m) == once.getInterpolatedSource(t, level, m)
    {
      ReIndexedLevel(ReIndexed(origin, outer), inner, t, level, m);
      ReIndexedLevel(origin, outer, t, inner[level], m);
      ReIndexedLevel(origin, Compose(outer, inner), t, level, m);
    }
  }

  /** The mapping 0, 1, ..., n-1 reproduces the origin on its own levels. */
  function Identity(n: nat): (ids: seq<int>)
    ensures |ids| == n && forall i :: 0 <= i < n ==> ids[i] == i
  {
    seq(n, i => i)
  }

  lemma ReIndexedIdentity<I, R>(origin: Source<I, R>)
    requires origin.numMipmapLevels >= 0
    ensures var s := ReIndexed(origin, Identity(origin.numMipmapLevels));
            s.numMipmapLevels == origin.numMipmapLevels && SameOnLevels(s, origin, origin.numMipmapLevels)
  {
    var ids := Identity(origin.numMipmapLevels);
    var s := ReIndexed(origin, ids);
    forall t, level | 0 <= level < origin.numMipmapLevels
      ensures s.getSource(t, level) == origin.getSource(t, level)
      ensures s.getSourceTransform(t, level) == origin.getSourceTransform(t, level)
    {
      ReIndexedLevel(origin, ids, t, level, NearestNeighbor);
    }
    forall t, level, m | 0 <= level < origin.numMipmapLevels
      ensures s.getInterpolatedSource(t, level, m) == origin.getInterpolatedSource(t, level, m)
    {
      ReIndexedLevel(origin, ids, t, level, m);
    }
  }

  /** The two single-level wrappers of the resolution-level demo: the top one shows
      the origin's finest level 0, the bottom one its coarsest, last level. */
  function TopAndBottom<I, R>(origin: Source<I, R>): (r: (Source<I, R>, Source<I, R>))
  {
    (ReIndexed(origin, [0]), ReIndexed(origin, [origin.numMipmapLevels - 1]))
  }

  lemma TopAndBottomLevels<I, R>(origin: Source<I, R>, t: int, level: int)
    requires origin.numMipmapLevels >= 1
    ensures var (top, bottom) := TopAndBottom(origin);
            top.numMipmapLevels == 1 && bottom.numMipmapLevels == 1
            && top.getSource(t, 0) == origin.getSource(t, 0)
            && bottom.getSource(t, 0) == origin.getSource(t, origin.numMipmapLevels - 1)
            && top.getSourceTransform(t, 0) == origin.getSourceTransform(t, 0)
            && bottom.getSourceTransform(t, 0) == origin.getSourceTransform(t, origin.numMipmapLevels - 1)
            && (level != 0 ==>
                  top.getSource(t, level) == Failure(IndexOutOfBounds)
                  && bottom.getSource(t, level) == Failure(IndexOutOfBounds))
  {
    var n := origin.numMipmapLevels;
    ReIndexedLevel(origin, [0], t, 0, NearestNeighbor);
    ReIndexedLevel(origin, [n - 1], t, 0, NearestNeighbor);
    ReIndexedLevel(origin, [0], t, level, NearestNeighbor);
    ReIndexedLevel(origin, [n - 1], t, level, NearestNeighbor);
  }
}

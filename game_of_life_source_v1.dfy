/** `GameOfLifeSourcev1`: the earlier variant of the lazily filled generation table.
    Its cell loader visits the `RectangleShape(1, true)` neighbourhoods of the
    hyperslice at z = 0 of the tile's view, so every z-plane takes its neighbour
    sums from plane 0 of the previous generation; only the centre value comes from
    the tile's own plane. */
module GameOfLifeSourceV1 {
  import opened Wrappers
  import opened Images
  import opened Life
  import GameOfLifeSource

  const MaxTimepoint := 5000

  /** One generation as the v1 loader computes it: plane z takes its centres from
      plane z and its neighbour sums from plane 0. */
  function StepV1(prev: Image): (next: Image)
    requires Wf(prev)
    ensures Wf(next) && next.dims == prev.dims
  {
    Image(prev.dims, seq(prev.dims.z, z requires 0 <= z < prev.dims.z =>
      StepPlaneFrom(prev.voxels[z], prev.voxels[0], prev.dims.x, prev.dims.y)))
  }

  /** The seed after n v1 generations. */
  function GenerationV1(seed: Image, n: nat): (g: Image)
    requires Wf(seed)
    ensures Wf(g) && g.dims == seed.dims
    decreases n
  {
    if n == 0 then seed else StepV1(GenerationV1(seed, n - 1))
  }

  /** Plane 0 evolves exactly as in the plane-wise rule of `GameOfLifeSource`. */
  lemma StepV1AgreesOnPlaneZero(prev: Image)
    requires Wf(prev) && prev.dims.z >= 1
    ensures StepV1(prev).voxels[0] == GameOfLifeSource.Step(prev).voxels[0]
  {
  }

  /** For a one-plane seed the two variants build the same table. */
  lemma {:induction false} SinglePlaneGenerationsAgree(seed: Image, n: nat)
    requires Wf(seed) && seed.dims.z == 1
    ensures GenerationV1(seed, n) == GameOfLifeSource.Generation(seed, n)
  {
    if n > 0 {
      SinglePlaneGenerationsAgree(seed, n - 1);
      var prev := GenerationV1(seed, n - 1);
      var a, b := StepV1(prev), GameOfLifeSource.Step(prev);
      assert a.voxels == [a.voxels[0]] && b.voxels == [b.voxels[0]];
      StepV1AgreesOnPlaneZero(prev);
    }
  }

  /** A 3 x 1 x 2 seed where the variants differ: plane 1 is empty, yet its middle
      cell is born in v1, because plane 0 holds a live cell at x = 0 that the
      clamped border counts three times (3 * 16 == 48). */
  const TwoPlaneSeed := Image(Dims(3, 1, 2), [[[16, 0, 0]], [[0, 0, 0]]])

  lemma V1DiffersOnTwoPlanes()
    ensures Wf(TwoPlaneSeed)
    ensures StepV1(TwoPlaneSeed).voxels[1][0][1] == 16
    ensures GameOfLifeSource.Step(TwoPlaneSeed).voxels[1][0][1] == 0
  {
    var s := TwoPlaneSeed;
    assert WfPlane(s.voxels[0], 3, 1) && WfPlane(s.voxels[1], 3, 1);
    StepPlaneFromAt(s.voxels[1], s.voxels[0], 3, 1, 1, 0);
    StepPlaneAt(s.voxels[1], 3, 1, 1, 0);
    assert NeighbourSum(s.voxels[0], 3, 1, 1, 0) == 48;
    assert NeighbourSum(s.voxels[1], 3, 1, 1, 0) == 0;
  }

  /** Offsets of `RectangleShape(1, true)` in its iteration order, x fastest,
      centre skipped. */
  const RectangleOffsets: seq<(int, int)> :=
    [(-1, -1), (0, -1), (1, -1), (-1, 0), (1, 0), (-1, 1), (0, 1), (1, 1)]

  /** Sum over the first k neighbourhood offsets. */
  function PartialSum(p: Plane, w: nat, h: nat, x: int, y: int, k: nat): int
    requires WfPlane(p, w, h) && w > 0 && h > 0 && k <= |RectangleOffsets|
  {
    if k == 0 then 0
    else PartialSum(p, w, h, x, y, k - 1) +
         BorderAt(p, w, h, x + RectangleOffsets[k - 1].0, y + RectangleOffsets[k - 1].1)
  }

  /** The neighbourhood visits each of the eight neighbours once. */
  lemma WholeNeighbourhoodIsNeighbourSum(p: Plane, w: nat, h: nat, x: int, y: int)
    requires WfPlane(p, w, h) && w > 0 && h > 0
    ensures PartialSum(p, w, h, x, y, 8) == NeighbourSum(p, w, h, x, y)
  {
    assert PartialSum(p, w, h, x, y, 1) == PartialSum(p, w, h, x, y, 0) + BorderAt(p, w, h, x - 1, y - 1);
    assert PartialSum(p, w, h, x, y, 2) == PartialSum(p, w, h, x, y, 1) + BorderAt(p, w, h, x, y - 1);
    assert PartialSum(p, w, h, x, y, 3) == PartialSum(p, w, h, x, y, 2) + BorderAt(p, w, h, x + 1, y - 1);
    assert PartialSum(p, w, h, x, y, 4) == PartialSum(p, w, h, x, y, 3) + BorderAt(p, w, h, x - 1, y);
    assert PartialSum(p, w, h, x, y, 5) == PartialSum(p, w, h, x, y, 4) + BorderAt(p, w, h, x + 1, y);
    assert PartialSum(p, w, h, x, y, 6) == PartialSum(p, w, h, x, y, 5) + BorderAt(p, w, h, x - 1, y + 1);
    assert PartialSum(p, w, h, x, y, 7) == PartialSum(p, w, h, x, y, 6) + BorderAt(p, w, h, x, y + 1);
    assert PartialSum(p, w, h, x, y, 8) == PartialSum(p, w, h, x, y, 7) + BorderAt(p, w, h, x + 1, y + 1);
  }

  /** The inner loop of the loader: sums the values of one neighbourhood. */
  method NeighbourhoodSum(p: Plane, w: nat, h: nat, x: int, y: int) returns (val: int)
    requires WfPlane(p, w, h) && w > 0 && h > 0
    ensures val == NeighbourSum(p, w, h, x, y)
  {
    val := 0;
    for k := 0 to |RectangleOffsets|
      invariant val == PartialSum(p, w, h, x, y, k)
    {
      val := val + BorderAt(p, w, h, x + RectangleOffsets[k].0, y + RectangleOffsets[k].1);
    }
    WholeNeighbourhoodIsNeighbourSum(p, w, h, x, y);
  }

  /** One pass of the loader's inner loop: the rectangle sum over the plane `n`,
      then the rule on the centre read from the cell's own plane `c`. */
  method NextCell(c: Plane, n: Plane, w: nat, h: nat, x: nat, y: nat) returns (v: int)
    requires WfPlane(c, w, h) && WfPlane(n, w, h) && x < w && y < h
    ensures v == StepPlaneFrom(c, n, w, h)[y][x]
  {
    var val := NeighbourhoodSum(n, w, h, x, y);
    if c[y][x] == 16 {
      v := if val == 32 || val == 48 then 16 else 0;
    } else {
      v := if val == 48 then 16 else 0;
    }
    StepPlaneFromAt(c, n, w, h, x, y);
  }

  /** The loader's loop over one tile: fills `out`, whose corner is (x0, y0), with
      centres from plane `c` and neighbourhood sums from plane `n`. */
  method FillTile(c: Plane, n: Plane, w: nat, h: nat, x0: nat, y0: nat, out: array2<int>)
    requires WfPlane(c, w, h) && WfPlane(n, w, h) && x0 + out.Length1 <= w && y0 + out.Length0 <= h
    modifies out
    ensures forall j, i :: 0 <= j < out.Length0 && 0 <= i < out.Length1 ==>
              out[j, i] == StepPlaneFrom(c, n, w, h)[y0 + j][x0 + i]
  {
    ghost var next := StepPlaneFrom(c, n, w, h);
    var j := 0;
    while j < out.Length0
      invariant 0 <= j <= out.Length0
      invariant forall jj, ii :: 0 <= jj < j && 0 <= ii < out.Length1 ==> out[jj, ii] == next[y0 + jj][x0 + ii]
    {
      var i := 0;
      while i < out.Length1
        invariant 0 <= i <= out.Length1
        invariant forall jj, ii :: 0 <= jj < j && 0 <= ii < out.Length1 ==> out[jj, ii] == next[y0 + jj][x0 + ii]
        invariant forall ii :: 0 <= ii < i ==> out[j, ii] == next[y0 + j][x0 + ii]
      {
        var v := NextCell(c, n, w, h, x0 + i, y0 + j);
        out[j, i] := v;
        i := i + 1;
      }
      j := j + 1;
    }
  }

  /** The cell loader: the tile lies in plane z and is filled with that plane of
      `StepV1(below)`. */
  method LoadCell(below: Image, x0: nat, y0: nat, z: nat, out: array2<int>)
    requires Wf(below) && z < below.dims.z
    requires x0 + out.Length1 <= below.dims.x && y0 + out.Length0 <= below.dims.y
    modifies out
    ensures forall j, i :: 0 <= j < out.Length0 && 0 <= i < out.Length1 ==>
              out[j, i] == StepV1(below).voxels[z][y0 + j][x0 + i]
  {
    FillTile(below.voxels[z], below.voxels[0], below.dims.x, below.dims.y, x0, y0, out);
    assert StepV1(below).voxels[z] ==
           StepPlaneFrom(below.voxels[z], below.voxels[0], below.dims.x, below.dims.y);
  }

  /** `sources` holds exactly the keys -1 .. top, and key t holds generation t + 1. */
  ghost predicate Table(seed: Image, sources: map<int, Image>, top: int)
    requires Wf(seed)
  {
    top >= -1 &&
    (forall t :: t in sources <==> -1 <= t <= top) &&
    (forall t :: -1 <= t <= top ==> sources[t] == GenerationV1(seed, t + 1))
  }

  /** Storing the step of the latest generation under the next key keeps the table whole. */
  lemma TableExtend(seed: Image, sources: map<int, Image>, t: int)
    requires Wf(seed) && Table(seed, sources, t - 1)
    ensures Table(seed, sources[t := StepV1(sources[t - 1])], t)
  {
    var next := sources[t := StepV1(sources[t - 1])];
    assert StepV1(sources[t - 1]) == GenerationV1(seed, t + 1);
    forall k | -1 <= k <= t
      ensures next[k] == GenerationV1(seed, k + 1)
    {
      if k < t {
        assert next[k] == sources[k];
      }
    }
  }

  class GameOfLifeSourceV1 {
    const name: string
    const nResolutionLevels: int := 1
    /** The origin image handed to the constructor. */
    ghost const seed: Image
    /** The table `time -> image`; key -1 holds the seed. */
    var sources: map<int, Image>
    /** The latest generation built so far (-1 when only the seed is stored). */
    ghost var top: int

    /** The table holds exactly the keys -1 .. top, and key t holds v1 generation t + 1. */
    ghost predicate Valid()
      reads this
    {
      Wf(seed) && Table(seed, sources, top)
    }

    constructor (name: string, origin: Image)
      requires Wf(origin)
      ensures Valid() && seed == origin && top == -1
      ensures sources == map[-1 := origin]
      ensures this.name == name
    {
      this.name := name;
      seed := origin;
      sources := map[-1 := origin];
      top := -1;
    }

    function IsPresent(t: int): (b: bool)
      ensures b <==> 0 <= t < MaxTimepoint
    {
      t >= 0 && t < MaxTimepoint
    }

    function NumMipmapLevels(): (n: int)
      ensures n == 1
    {
      nResolutionLevels
    }

    function SourceTransform(t: int, level: int): (a: AffineTransform3D)
      ensures a == IdentityTransform
    {
      IdentityTransform
    }

    function GetType(): (p: PixelType)
      ensures p == UnsignedByte
    {
      UnsignedByte
    }

    function GetName(): (n: string)
      ensures n == name
    {
      name
    }

    function GetVoxelDimensions(): (d: VoxelDimensions)
      ensures d == PixelVoxels
    {
      PixelVoxels
    }

    /** Builds v1 generation t + 1 at key t, after every missing key below it. */
    method BuildSources(t: int)
      requires Valid() && t !in sources && t >= 0
      modifies this
      ensures Valid() && top == t
      ensures forall k :: k in old(sources) ==> k in sources && sources[k] == old(sources[k])
      decreases t
    {
      assert -1 in sources;
      if t - 1 !in sources {
        BuildSources(t - 1);
      }
      assert top == t - 1;
      TableExtend(seed, sources, t);
      var below := sources[t - 1];
      sources := sources[t := StepV1(below)];
      top := t;
    }

    /** The image at time point t. Missing generations are built and stored first,
        even when the level is then refused. Below -1 the recursion would never end. */
    method GetSource(t: int, level: int) returns (r: Result<Image>)
      requires Valid()
      modifies this
      ensures Valid()
      ensures forall k :: k in old(sources) ==> k in sources && sources[k] == old(sources[k])
      ensures t < -1 ==> r == Failure(StackOverflow) && sources == old(sources) && top == old(top)
      ensures t in old(sources) ==> sources == old(sources) && top == old(top)
      ensures t >= -1 ==> t in sources && top == (if t > old(top) then t else old(top))
      ensures t >= -1 && level > 0 ==> r == Failure(NotMultiresolution)
      ensures t >= -1 && level <= 0 ==> r == Success(sources[t]) && r.value == GenerationV1(seed, t + 1)
      ensures IsPresent(t) && level == 0 ==> r.Success?
    {
      if t < -1 {
        return Failure(StackOverflow);
      }
      if t !in sources {
        BuildSources(t);
      }
      if level > 0 {
        return Failure(NotMultiresolution);
      }
      return Success(sources[t]);
    }

    /** The image at time point t, extended with zeros and interpolated. */
    method GetInterpolatedSource(t: int, level: int, interpolation: Interpolation) returns (r: Result<RealView>)
      requires Valid()
      modifies this
      ensures Valid()
      ensures forall k :: k in old(sources) ==> k in sources && sources[k] == old(sources[k])
      ensures t < -1 ==> r == Failure(StackOverflow) && sources == old(sources) && top == old(top)
      ensures t in old(sources) ==> sources == old(sources) && top == old(top)
      ensures t >= -1 ==> t in sources && top == (if t > old(top) then t else old(top))
      ensures t >= -1 && level > 0 ==> r == Failure(NotMultiresolution)
      ensures t >= -1 && level <= 0 ==>
                r == Success(ZeroExtendedInterpolated(GenerationV1(seed, t + 1), interpolation))
    {
      var img := GetSource(t, level);
      if img.Failure? {
        return Failure(img.error);
      }
      return Success(ZeroExtendedInterpolated(img.value, interpolation));
    }
  }
}

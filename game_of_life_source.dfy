/** `GameOfLifeSource`: a viewer source whose time point t is generation t + 1 of a
    seed image. Generations live in a table `time -> image` that is filled on
    demand, each new generation built from the one before it; the seed sits at
    key -1. Each generation is modelled as a fully built image; the cell loader
    that fills one 64 x 64 x 1 tile of it is the method `LoadCell`. */
module GameOfLifeSource {
  import opened Wrappers
  import opened Images
  import opened Life

  /** Time points 0 .. 4999 are shown. */
  const MaxTimepoint := 5000


  /** One generation of the whole image: every z-plane evolves on its own. */
  function Step(prev: Image): (next: Image)
    requires Wf(prev)
    ensures Wf(next) && next.dims == prev.dims
  {
    Image(prev.dims, seq(prev.dims.z, z requires 0 <= z < prev.dims.z =>
      StepPlane(prev.voxels[z], prev.dims.x, prev.dims.y)))
  }

  /** The cell rule in one voxel of `Step(prev)`. */
  lemma StepAt(prev: Image, z: nat, y: nat, x: nat)
    requires Wf(prev) && z < prev.dims.z && y < prev.dims.y && x < prev.dims.x
    ensures Step(prev).voxels[z][y][x] ==
            NextState(prev.voxels[z][y][x], NeighbourSum(prev.voxels[z], prev.dims.x, prev.dims.y, x, y))
  {
    assert Step(prev).voxels[z] == StepPlane(prev.voxels[z], prev.dims.x, prev.dims.y);
    StepPlaneAt(prev.voxels[z], prev.dims.x, prev.dims.y, x, y);
  }

  /** The seed after n generations. */
  function Generation(seed: Image, n: nat): (g: Image)
    requires Wf(seed)
    ensures Wf(g) && g.dims == seed.dims
    decreases n
  {
    if n == 0 then seed else Step(Generation(seed, n - 1))
  }

  /** From the first generation on every voxel is 0 or 16, so each later generation
      is exactly Conway's B3/S23 generation of the one before, plane by plane. */
  lemma GenerationsFollowConway(seed: Image, n: nat, z: nat)
    requires Wf(seed) && n >= 1 && z < seed.dims.z
    ensures LiveOrDead(Generation(seed, n).voxels[z], seed.dims.x, seed.dims.y)
    ensures Generation(seed, n + 1).voxels[z] ==
            Conway(Generation(seed, n).voxels[z], seed.dims.x, seed.dims.y)
  {
    var prev := Generation(seed, n - 1);
    var g := Generation(seed, n);
    assert g.voxels[z] == StepPlane(prev.voxels[z], seed.dims.x, seed.dims.y);
    StepPlaneFromLiveOrDead(prev.voxels[z], prev.voxels[z], seed.dims.x, seed.dims.y);
    StepPlaneIsConway(g.voxels[z], seed.dims.x, seed.dims.y);
  }

  /** One pass of the loader's loop: the eight offset cursors read the cell's
      neighbours through the border extension, the centre cursor the cell itself,
      and the switch on the sum decides the new value. */
  method NextCell(p: Plane, w: nat, h: nat, x: nat, y: nat) returns (v: int)
    requires WfPlane(p, w, h) && x < w && y < h
    ensures v == NextState(p[y][x], NeighbourSum(p, w, h, x, y))
  {
    var val :=
      BorderAt(p, w, h, x, y + 1) + BorderAt(p, w, h, x + 1, y) + BorderAt(p, w, h, x + 1, y + 1) +
      BorderAt(p, w, h, x + 1, y - 1) + BorderAt(p, w, h, x, y - 1) + BorderAt(p, w, h, x - 1, y - 1) +
      BorderAt(p, w, h, x - 1, y) + BorderAt(p, w, h, x - 1, y + 1);
    if p[y][x] == 16 {
      match val
      case 0 => v := 0;
      case 16 => v := 0;
      case 32 => v := 16;
      case 48 => v := 16;
      case _ => v := 0;
    } else {
      v := if val == 48 then 16 else 0;
    }
  }

  /** The loader's loop over one tile of plane `p`: fills the tile buffer `out`,
      whose corner is (x0, y0), with `StepPlane(p)`, visiting rows first as the flat
      cursor order does. */
  method FillTile(p: Plane, w: nat, h: nat, x0: nat, y0: nat, out: array2<int>)
    requires WfPlane(p, w, h) && x0 + out.Length1 <= w && y0 + out.Length0 <= h
    modifies out
    ensures forall j, i :: 0 <= j < out.Length0 && 0 <= i < out.Length1 ==>
              out[j, i] == StepPlane(p, w, h)[y0 + j][x0 + i]
  {
    ghost var next := StepPlane(p, w, h);
    var j := 0;
    while j < out.Length0
      invariant 0 <= j <= out.Length0
      invariant forall jj, ii :: 0 <= jj < j && 0 <= ii < out.Length1 ==> out[jj, ii] == next[y0 + jj][x0 + ii]
    {
      var i := 0;
      while i < out.Length1
        invariant 0 <= i <= out.Length1
        invariant forall jj, ii :: 0 <= jj < j && 0 <= ii < out.Length1 ==> out[jj, ii] == next[y0 + jj][x0 + ii]
        invariant forall ii :: 0 <= ii < i ==> out[j, ii] == next[y0 + j][x0 + ii]
      {
        var v := NextCell(p, w, h, x0 + i, y0 + j);
        StepPlaneAt(p, w, h, x0 + i, y0 + j);
        out[j, i] := v;
        i := i + 1;
      }
      j := j + 1;
    }
  }

  /** The cell loader: a tile lies in one z-plane, and is filled with that plane of
      `Step(below)`. */
  method LoadCell(below: Image, x0: nat, y0: nat, z: nat, out: array2<int>)
    requires Wf(below) && z < below.dims.z
    requires x0 + out.Length1 <= below.dims.x && y0 + out.Length0 <= below.dims.y
    modifies out
    ensures forall j, i :: 0 <= j < out.Length0 && 0 <= i < out.Length1 ==>
              out[j, i] == Step(below).voxels[z][y0 + j][x0 + i]
  {
    FillTile(below.voxels[z], below.dims.x, below.dims.y, x0, y0, out);
    assert Step(below).voxels[z] == StepPlane(below.voxels[z], below.dims.x, below.dims.y);
  }

  /** `sources` holds exactly the keys -1 .. top, and key t holds generation t + 1. */
  ghost predicate Table(seed: Image, sources: map<int, Image>, top: int)
    requires Wf(seed)
  {
    top >= -1 &&
    (forall t :: t in sources <==> -1 <= t <= top) &&
    (forall t :: -1 <= t <= top ==> sources[t] == Generation(seed, t + 1))
  }

  /** Storing the step of the latest generation under the next key keeps the table whole. */
  lemma TableExtend(seed: Image, sources: map<int, Image>, t: int)
    requires Wf(seed) && Table(seed, sources, t - 1)
    ensures Table(seed, sources[t := Step(sources[t - 1])], t)
  {
    var next := sources[t := Step(sources[t - 1])];
    assert Step(sources[t - 1]) == Generation(seed, t + 1);
    forall k | -1 <= k <= t
      ensures next[k] == Generation(seed, k + 1)
    {
      if k < t {
        assert next[k] == sources[k];
      }
    }
  }

  class GameOfLifeSource {
    const name: string
    const nResolutionLevels: int := 1
    /** The origin image handed to the constructor. */
    ghost const seed: Image
    /** The table `time -> image`; key -1 holds the seed. */
    var sources: map<int, Image>
    /** The latest generation built so far (-1 when only the seed is stored). */
    ghost var top: int

    /** The table holds exactly the keys -1 .. top, and key t holds generation t + 1. */
    ghost predicate Valid()
      reads this
    {
      Wf(seed) && Table(seed, sources, top)
    }

    constructor (name: string, origin: Image)
      requires Wf(origin)
      ensures Valid() && seed == origin && top == -1
      ensures sources == map[-1 := origin]
      ensures this.name == name
    {
      this.name := name;
      seed := origin;
      sources := map[-1 := origin];
      top := -1;
    }

    function IsPresent(t: int): (b: bool)
      ensures b <==> 0 <= t < MaxTimepoint
    {
      t >= 0 && t < MaxTimepoint
    }

    function NumMipmapLevels(): (n: int)
      ensures n == 1
    {
      nResolutionLevels
    }

    function SourceTransform(t: int, level: int): (a: AffineTransform3D)
      ensures a == IdentityTransform
    {
      IdentityTransform
    }

    function GetType(): (p: PixelType)
      ensures p == UnsignedByte
    {
      UnsignedByte
    }

    function GetName(): (n: string)
      ensures n == name
    {
      name
    }

    function GetVoxelDimensions(): (d: VoxelDimensions)
      ensures d == PixelVoxels
    {
      PixelVoxels
    }

    /** Builds generation t + 1 at key t, after every missing key below it. */
    method BuildSources(t: int)
      requires Valid() && t !in sources && t >= 0
      modifies this
      ensures Valid() && top == t
      ensures forall k :: k in old(sources) ==> k in sources && sources[k] == old(sources[k])
      decreases t
    {
      assert -1 in sources;
      if t - 1 !in sources {
        BuildSources(t - 1);
      }
      assert top == t - 1;
      TableExtend(seed, sources, t);
      var below := sources[t - 1];
      sources := sources[t := Step(below)];
      top := t;
    }

    /** The image at time point t. Missing generations are built and stored first,
        even when the level is then refused. Below -1 the recursion would never end. */
    method GetSource(t: int, level: int) returns (r: Result<Image>)
      requires Valid()
      modifies this
      ensures Valid()
      ensures forall k :: k in old(sources) ==> k in sources && sources[k] == old(sources[k])
      ensures t < -1 ==> r == Failure(StackOverflow) && sources == old(sources) && top == old(top)
      ensures t in old(sources) ==> sources == old(sources) && top == old(top)
      ensures t >= -1 ==> t in sources && top == (if t > old(top) then t else old(top))
      ensures t >= -1 && level > 0 ==> r == Failure(NotMultiresolution)
      ensures t >= -1 && level <= 0 ==> r == Success(sources[t]) && r.value == Generation(seed, t + 1)
      ensures IsPresent(t) && level == 0 ==> r.Success?
    {
      if t < -1 {
        return Failure(StackOverflow);
      }
      if t !in sources {
        BuildSources(t);
      }
      if level > 0 {
        return Failure(NotMultiresolution);
      }
      return Success(sources[t]);
    }

    /** The image at time point t, extended with zeros and interpolated. */
    method GetInterpolatedSource(t: int, level: int, interpolation: Interpolation) returns (r: Result<RealView>)
      requires Valid()
      modifies this
      ensures Valid()
      ensures forall k :: k in old(sources) ==> k in sources && sources[k] == old(sources[k])
      ensures t < -1 ==> r == Failure(StackOverflow) && sources == old(sources) && top == old(top)
      ensures t in old(sources) ==> sources == old(sources) && top == old(top)
      ensures t >= -1 ==> t in sources && top == (if t > old(top) then t else old(top))
      ensures t >= -1 && level > 0 ==> r == Failure(NotMultiresolution)
      ensures t >= -1 && level <= 0 ==>
                r == Success(ZeroExtendedInterpolated(Generation(seed, t + 1), interpolation))
    {
      var img := GetSource(t, level);
      if img.Failure? {
        return Failure(img.error);
      }
      return Success(ZeroExtendedInterpolated(img.value, interpolation));
    }
  }
}

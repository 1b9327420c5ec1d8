/** `GameOfLifeSourcev2`: a single time point holding one volume in which plane z
    is z generations from the seed. Plane 0 is the seed's plane 0 copied verbatim;
    the loader of a tile in plane z >= 1 reads plane z - 1 of the same volume
    through a border extension in x and y. */
module GameOfLifeSourceV2 {
  import opened Wrappers
  import opened Images
  import opened Life

  /** Plane `p` after n plane-wise generations. */
  function Evolve(p: Plane, w: nat, h: nat, n: nat): (q: Plane)
    requires WfPlane(p, w, h)
    ensures WfPlane(q, w, h)
    decreases n
  {
    if n == 0 then p else StepPlane(Evolve(p, w, h, n - 1), w, h)
  }

  /** The volume the constructor builds: the seed's x and y sizes, `maxStep` planes,
      plane 0 a copy of the seed's plane 0 and every later plane the next generation
      of the plane before it. */
  function BuildVolume(seed: Image, maxStep: nat): (img: Image)
    requires Wf(seed) && seed.dims.z >= 1
    ensures Wf(img) && img.dims == Dims(seed.dims.x, seed.dims.y, maxStep)
    ensures maxStep > 0 ==> img.voxels[0] == seed.voxels[0]
    ensures forall z :: 1 <= z < maxStep ==>
              img.voxels[z] == StepPlane(img.voxels[z - 1], seed.dims.x, seed.dims.y)
  {
    var w, h := seed.dims.x, seed.dims.y;
    Image(Dims(w, h, maxStep), seq(maxStep, z requires 0 <= z < maxStep => Evolve(seed.voxels[0], w, h, z)))
  }

  /** Every plane after the first, the last one included, holds only 0 and 16. */
  lemma VolumeLiveOrDead(seed: Image, maxStep: nat, z: nat)
    requires Wf(seed) && seed.dims.z >= 1 && 1 <= z < maxStep
    ensures LiveOrDead(BuildVolume(seed, maxStep).voxels[z], seed.dims.x, seed.dims.y)
  {
    var img := BuildVolume(seed, maxStep);
    StepPlaneFromLiveOrDead(img.voxels[z - 1], img.voxels[z - 1], seed.dims.x, seed.dims.y);
  }

  /** From plane 1 on, each next plane is Conway's B3/S23 successor of the one before. */
  lemma VolumeFollowsConway(seed: Image, maxStep: nat, z: nat)
    requires Wf(seed) && seed.dims.z >= 1 && 1 <= z && z + 1 < maxStep
    ensures BuildVolume(seed, maxStep).voxels[z + 1] ==
            Conway(BuildVolume(seed, maxStep).voxels[z], seed.dims.x, seed.dims.y)
  {
    VolumeLiveOrDead(seed, maxStep, z);
    StepPlaneIsConway(BuildVolume(seed, maxStep).voxels[z], seed.dims.x, seed.dims.y);
  }

  /** The loader's copy loop: the tile of plane 0 receives the seed's values. */
  method CopyTile(p: Plane, w: nat, h: nat, x0: nat, y0: nat, out: array2<int>)
    requires WfPlane(p, w, h) && x0 + out.Length1 <= w && y0 + out.Length0 <= h
    modifies out
    ensures forall j, i :: 0 <= j < out.Length0 && 0 <= i < out.Length1 ==> out[j, i] == p[y0 + j][x0 + i]
  {
    var j := 0;
    while j < out.Length0
      invariant 0 <= j <= out.Length0
      invariant forall jj, ii :: 0 <= jj < j && 0 <= ii < out.Length1 ==> out[jj, ii] == p[y0 + jj][x0 + ii]
    {
      var i := 0;
      while i < out.Length1
        invariant 0 <= i <= out.Length1
        invariant forall jj, ii :: 0 <= jj < j && 0 <= ii < out.Length1 ==> out[jj, ii] == p[y0 + jj][x0 + ii]
        invariant forall ii :: 0 <= ii < i ==> out[j, ii] == p[y0 + j][x0 + ii]
      {
        out[j, i] := p[y0 + j][x0 + i];
        i := i + 1;
      }
      j := j + 1;
    }
  }

  /** One pass of the loader's step loop: nine random-access reads of the plane
      below, the centre first and then the neighbours clockwise from (x-1, y-1). */
  method NextPixel(p: Plane, w: nat, h: nat, x: nat, y: nat) returns (v: int)
    requires WfPlane(p, w, h) && x < w && y < h
    ensures v == NextState(p[y][x], NeighbourSum(p, w, h, x, y))
  {
    var v11 := BorderAt(p, w, h, x, y);
    var val := 0;
    val := val + BorderAt(p, w, h, x - 1, y - 1);
    val := val + BorderAt(p, w, h, x, y - 1);
    val := val + BorderAt(p, w, h, x + 1, y - 1);
    val := val + BorderAt(p, w, h, x + 1, y);
    val := val + BorderAt(p, w, h, x + 1, y + 1);
    val := val + BorderAt(p, w, h, x, y + 1);
    val := val + BorderAt(p, w, h, x - 1, y + 1);
    val := val + BorderAt(p, w, h, x - 1, y);
    if v11 == 16 {
      v := if val == 32 || val == 48 then 16 else 0;
    } else {
      v := if val == 48 then 16 else 0;
    }
  }

  /** The loader's step loop over one tile: `out`, whose corner is (x0, y0), receives
      the next generation of plane `p`. */
  method StepTile(p: Plane, w: nat, h: nat, x0: nat, y0: nat, out: array2<int>)
    requires WfPlane(p, w, h) && x0 + out.Length1 <= w && y0 + out.Length0 <= h
    modifies out
    ensures forall j, i :: 0 <= j < out.Length0 && 0 <= i < out.Length1 ==>
              out[j, i] == StepPlane(p, w, h)[y0 + j][x0 + i]
  {
    ghost var next := StepPlane(p, w, h);
    var j := 0;
    while j < out.Length0
      invariant 0 <= j <= out.Length0
      invariant forall jj, ii :: 0 <= jj < j && 0 <= ii < out.Length1 ==> out[jj, ii] == next[y0 + jj][x0 + ii]
    {
      var i := 0;
      while i < out.Length1
        invariant 0 <= i <= out.Length1
        invariant forall jj, ii :: 0 <= jj < j && 0 <= ii < out.Length1 ==> out[jj, ii] == next[y0 + jj][x0 + ii]
        invariant forall ii :: 0 <= ii < i ==> out[j, ii] == next[y0 + j][x0 + ii]
      {
        var v := NextPixel(p, w, h, x0 + i, y0 + j);
        StepPlaneAt(p, w, h, x0 + i, y0 + j);
        out[j, i] := v;
        i := i + 1;
      }
      j := j + 1;
    }
  }

  class GameOfLifeSourceV2 {
    const name: string
    const nResolutionLevels: int := 1
    const seed: Image
    const maxStep: nat
    /** The cached cell image built once by the constructor. */
    const img: Image

    ghost predicate Valid() {
      Wf(seed) && seed.dims.z >= 1 && img == BuildVolume(seed, maxStep)
    }

    constructor (name: string, seed: Image, maxStep: nat)
      requires Wf(seed) && seed.dims.z >= 1
      ensures Valid() && this.name == name && this.seed == seed && this.maxStep == maxStep
    {
      this.name := name;
      this.seed := seed;
      this.maxStep := maxStep;
      img := BuildVolume(seed, maxStep);
    }

    function IsPresent(t: int): (b: bool)
      ensures b <==> t == 0
    {
      t == 0
    }

    function NumMipmapLevels(): (n: int)
      ensures n == 1
    {
      nResolutionLevels
    }

    function SourceTransform(t: int, level: int): (a: AffineTransform3D)
      ensures a == IdentityTransform
    {
      IdentityTransform
    }

    function GetType(): (p: PixelType)
      ensures p == UnsignedShort
    {
      UnsignedShort
    }

    function GetName(): (n: string)
      ensures n == name
    {
      name
    }

    function GetVoxelDimensions(): (d: VoxelDimensions)
      ensures d == PixelVoxels
    {
      PixelVoxels
    }

    /** The volume, for time point 0 at level 0 (or below) only. */
    function GetSource(t: int, level: int): (r: Result<Image>)
      requires Valid()
      ensures r.Success? <==> t == 0 && level <= 0
      ensures t != 0 ==> r == Failure(SingleTimepoint)
      ensures t == 0 && level > 0 ==> r == Failure(NotMultiresolution)
      ensures r.Success? ==> r.value == img
      ensures r.Success? ==> Wf(r.value) && r.value.dims == Dims(seed.dims.x, seed.dims.y, maxStep)
      ensures r.Success? && maxStep > 0 ==> r.value.voxels[0] == seed.voxels[0]
      ensures r.Success? ==> forall z :: 0 <= z < maxStep ==>
                r.value.voxels[z] == Evolve(seed.voxels[0], seed.dims.x, seed.dims.y, z)
    {
      if t != 0 then Failure(SingleTimepoint)
      else if level > 0 then Failure(NotMultiresolution)
      else Success(img)
    }

    function GetInterpolatedSource(t: int, level: int, interpolation: Interpolation): (r: Result<RealView>)
      requires Valid()
      ensures r.Success? <==> GetSource(t, level).Success?
      ensures r.Failure? ==> r.error == GetSource(t, level).error
      ensures r.Success? ==> r.value == ZeroExtendedInterpolated(img, interpolation)
    {
      var s :- GetSource(t, level);
      Success(ZeroExtendedInterpolated(s, interpolation))
    }

    /** The cell loader for the tile of plane z whose corner is (x0, y0): plane 0 is
        copied from the seed, any later plane computed from plane z - 1 of the volume
        itself. Either way the tile receives exactly the volume's values. */
    method LoadCell(x0: nat, y0: nat, z: nat, out: array2<int>)
      requires Valid() && z < maxStep
      requires x0 + out.Length1 <= seed.dims.x && y0 + out.Length0 <= seed.dims.y
      modifies out
      ensures forall j, i :: 0 <= j < out.Length0 && 0 <= i < out.Length1 ==>
                out[j, i] == img.voxels[z][y0 + j][x0 + i]
    {
      if z == 0 {
        CopyTile(seed.voxels[0], seed.dims.x, seed.dims.y, x0, y0, out);
        return;
      }
      StepTile(img.voxels[z - 1], seed.dims.x, seed.dims.y, x0, y0, out);
    }
  }
}

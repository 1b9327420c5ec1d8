/** Images as the rest of the model sees them: a box of integer voxels with its
    dimensions, read with border extension, plus the small value types of the
    viewer's source interface. */
module Images {

  /** Sizes along x, y and z, as `dimensionsAsLongArray()` reports them. */
  datatype Dims = Dims(x: nat, y: nat, z: nat)

  /** One z-plane, indexed `plane[y][x]`. */
  type Plane = seq<seq<int>>

  /** A zero-based 3D image, indexed `voxels[z][y][x]`. */
  datatype Image = Image(dims: Dims, voxels: seq<Plane>)

  /** `p` is an `h` by `w` rectangle. */
  ghost predicate WfPlane(p: Plane, w: nat, h: nat) {
    |p| == h && forall y :: 0 <= y < h ==> |p[y]| == w
  }

  /** The voxels fill exactly the box the dimensions describe. */
  ghost predicate Wf(img: Image) {
    |img.voxels| == img.dims.z &&
    forall z :: 0 <= z < img.dims.z ==> WfPlane(img.voxels[z], img.dims.x, img.dims.y)
  }

  /** Index clamping: the border strategy maps an out-of-range index to the nearest edge. */
  function Clamp(i: int, n: nat): (c: nat)
    requires n > 0
    ensures c < n
  {
    if i < 0 then 0 else if i >= n then n - 1 else i
  }

  /** Value of plane `p` at (x, y) seen through a border extension in x and y
      (`Views.expandBorder(img, 1, 1, 0)` and the border-extended views under it). */
  function BorderAt(p: Plane, w: nat, h: nat, x: int, y: int): int
    requires WfPlane(p, w, h) && w > 0 && h > 0
  {
    p[Clamp(y, h)][Clamp(x, w)]
  }

  /** Pixel types of the sources. */
  datatype PixelType = UnsignedByte | UnsignedShort

  /** Interpolation methods a viewer may ask for. */
  datatype Interpolation = NearestNeighbor | NLinear

  /** An affine 3D transform, as its 3 x 4 matrix in row-major order. */
  datatype AffineTransform3D = AffineTransform3D(m: seq<real>)

  /** `transform.identity()`. */
  const IdentityTransform := AffineTransform3D([1.0, 0.0, 0.0, 0.0,
                                                0.0, 1.0, 0.0, 0.0,
                                                0.0, 0.0, 1.0, 0.0])

  /** `new FinalVoxelDimensions(unit, sx, sy, sz)`. */
  datatype VoxelDimensions = VoxelDimensions(unit: string, size: seq<real>)

  const PixelVoxels := VoxelDimensions("pixel", [1.0, 1.0, 1.0])

  /** `Views.interpolate(Views.extendZero(img), interpolators.get(method))`: the image
      extended with zeros outside its box, read with the given interpolation. */
  datatype RealView = ZeroExtendedInterpolated(image: Image, interpolation: Interpolation)
}

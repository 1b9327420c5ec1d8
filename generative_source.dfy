/** The procedural multi-resolution source: an unsigned 16-bit checkerboard of
    40-pixel blocks, defined by a function of the position and cut to a cube whose
    side grows with the number of resolution levels. */
module Generative {
  import opened JavaInt
  import opened Images

  const BlockSize := 40
  const Bright := 50000

  /** `UnsignedShortType.set(int)`: only the low 16 bits are kept. */
  function StoreUnsignedShort(v: Int32): (s: int)
    ensures 0 <= s < 0x1_0000
    ensures 0 <= v < 0x1_0000 ==> s == v
  {
    v % 0x1_0000
  }

  /** The pixel lambda at the long position (x, y, z): the block indices are summed,
      their parity (Java's `%`) is scaled by 50000, cast to `int` and stored. */
  function Pixel(x: Int64, y: Int64, z: Int64): (v: int)
    ensures 0 <= v < 0x1_0000
  {
    var blocks := Wrap64(Wrap64(TruncDiv(x, BlockSize) + TruncDiv(y, BlockSize)) + TruncDiv(z, BlockSize));
    StoreUnsignedShort(Wrap32(Wrap64(TruncRem(blocks, 2) * Bright)))
  }

  /** Dafny's parity of the block-index sum, for non-negative positions. */
  function Checker(x: nat, y: nat, z: nat): (v: int)
    ensures v == 0 || v == Bright
  {
    (x / BlockSize + y / BlockSize + z / BlockSize) % 2 * Bright
  }

  /** At a non-negative position the pixel is the checkerboard value: 0 or 50000,
      always within 16 unsigned bits, with no wrap-around on the way. */
  lemma PixelIsChecker(x: Int64, y: Int64, z: Int64)
    requires x >= 0 && y >= 0 && z >= 0
    ensures Pixel(x, y, z) == Checker(x, y, z)
    ensures Pixel(x, y, z) == 0 || Pixel(x, y, z) == Bright
  {
    TruncAgreesOnNonNegative(x, BlockSize);
    TruncAgreesOnNonNegative(y, BlockSize);
    TruncAgreesOnNonNegative(z, BlockSize);
    var s := x / BlockSize + y / BlockSize + z / BlockSize;
    assert 0 <= s <= LongMax;
    TruncAgreesOnNonNegative(s, 2);
  }

  /** The value depends only on the block indices. */
  lemma PixelDependsOnBlocks(x: Int64, y: Int64, z: Int64, x': Int64, y': Int64, z': Int64)
    requires x >= 0 && y >= 0 && z >= 0 && x' >= 0 && y' >= 0 && z' >= 0
    requires x / BlockSize == x' / BlockSize && y / BlockSize == y' / BlockSize && z / BlockSize == z' / BlockSize
    ensures Pixel(x, y, z) == Pixel(x', y', z')
  {
    PixelIsChecker(x, y, z);
    PixelIsChecker(x', y', z');
  }

  /** One block further along any one axis the checkerboard flips; two blocks
      further it is back. */
  lemma CheckerAlternates(x: nat, y: nat, z: nat)
    ensures Checker(x + BlockSize, y, z) != Checker(x, y, z)
    ensures Checker(x + 2 * BlockSize, y, z) == Checker(x, y, z)
    ensures Checker(x, y + BlockSize, z) != Checker(x, y, z)
    ensures Checker(x, y + 2 * BlockSize, z) == Checker(x, y, z)
    ensures Checker(x, y, z + BlockSize) != Checker(x, y, z)
    ensures Checker(x, y, z + 2 * BlockSize) == Checker(x, y, z)
  {
    var s := x / BlockSize + y / BlockSize + z / BlockSize;
    NextBlocks(x);
    NextBlocks(y);
    NextBlocks(z);
    assert (s + 1) % 2 != s % 2 && (s + 2) % 2 == s % 2;
  }

  lemma NextBlocks(c: nat)
    ensures (c + BlockSize) / BlockSize == c / BlockSize + 1
    ensures (c + 2 * BlockSize) / BlockSize == c / BlockSize + 2
  {
  }

  /** Moving one block along any one axis flips the pixel; moving two blocks
      restores it (as long as the moved coordinate stays a Java long). */
  lemma PixelAlternates(x: Int64, y: Int64, z: Int64)
    requires x >= 0 && y >= 0 && z >= 0
    ensures x + 2 * BlockSize <= LongMax ==>
              Pixel(x + BlockSize, y, z) != Pixel(x, y, z) && Pixel(x + 2 * BlockSize, y, z) == Pixel(x, y, z)
    ensures y + 2 * BlockSize <= LongMax ==>
              Pixel(x, y + BlockSize, z) != Pixel(x, y, z) && Pixel(x, y + 2 * BlockSize, z) == Pixel(x, y, z)
    ensures z + 2 * BlockSize <= LongMax ==>
              Pixel(x, y, z + BlockSize) != Pixel(x, y, z) && Pixel(x, y, z + 2 * BlockSize) == Pixel(x, y, z)
  {
    if x + 2 * BlockSize <= LongMax { PixelAlternatesX(x, y, z); }
    if y + 2 * BlockSize <= LongMax { PixelAlternatesY(x, y, z); }
    if z + 2 * BlockSize <= LongMax { PixelAlternatesZ(x, y, z); }
  }

  lemma PixelAlternatesX(x: Int64, y: Int64, z: Int64)
    requires x >= 0 && y >= 0 && z >= 0 && x + 2 * BlockSize <= LongMax
    ensures Pixel(x + BlockSize, y, z) != Pixel(x, y, z) && Pixel(x + 2 * BlockSize, y, z) == Pixel(x, y, z)
  {
    PixelIsChecker(x, y, z);
    PixelIsChecker(x + BlockSize, y, z);
    PixelIsChecker(x + 2 * BlockSize, y, z);
    CheckerAlternates(x, y, z);
  }

  lemma PixelAlternatesY(x: Int64, y: Int64, z: Int64)
    requires x >= 0 && y >= 0 && z >= 0 && y + 2 * BlockSize <= LongMax
    ensures Pixel(x, y + BlockSize, z) != Pixel(x, y, z) && Pixel(x, y + 2 * BlockSize, z) == Pixel(x, y, z)
  {
    PixelIsChecker(x, y, z);
    PixelIsChecker(x, y + BlockSize, z);
    PixelIsChecker(x, y + 2 * BlockSize, z);
    CheckerAlternates(x, y, z);
  }

  lemma PixelAlternatesZ(x: Int64, y: Int64, z: Int64)
    requires x >= 0 && y >= 0 && z >= 0 && z + 2 * BlockSize <= LongMax
    ensures Pixel(x, y, z + BlockSize) != Pixel(x, y, z) && Pixel(x, y, z + 2 * BlockSize) == Pixel(x, y, z)
  {
    PixelIsChecker(x, y, z);
    PixelIsChecker(x, y, z + BlockSize);
    PixelIsChecker(x, y, z + 2 * BlockSize);
    CheckerAlternates(x, y, z);
  }

  /** An illustration of the Java arithmetic only: the block index of -40 is -1,
      -1 % 2 is -1, and -50000 is stored as 15536. The source never reads this
      value, because the zero extension of its cube answers 0 at every negative
      position. */
  lemma NegativeBlockWraps(side: int, m: Interpolation)
    ensures Pixel(-BlockSize, 0, 0) == 15536
    ensures ZeroExtendedView(ProceduralImage(side), m).At(-BlockSize, 0, 0) == 0
  {
    assert TruncDiv(-BlockSize, BlockSize) == -1;
    assert TruncDiv(0, BlockSize) == 0;
    assert TruncRem(-1, 2) == -1;
  }

  /** The cube `Views.interval(ra, side, side, side)` of the pixel function, indexed
      from 0; `side` stands for the constructor's `(long) Math.pow(2, nLevels)`. */
  datatype ProceduralImage = ProceduralImage(side: int) {
    function At(x: Int64, y: Int64, z: Int64): (v: int)
      requires 0 <= x < side && 0 <= y < side && 0 <= z < side
    {
      Pixel(x, y, z)
    }
  }

  /** The cube extended with zeros and interpolated, read at integer positions. */
  datatype ProceduralView = ZeroExtendedView(image: ProceduralImage, interpolation: Interpolation) {
    function At(x: Int64, y: Int64, z: Int64): (v: int)
    {
      if 0 <= x < image.side && 0 <= y < image.side && 0 <= z < image.side then image.At(x, y, z) else 0
    }
  }

  datatype GenerativeSource = GenerativeSource(name: string, nLevels: Int32, rai: ProceduralImage) {

    /** Every time point is present. */
    function IsPresent(t: Int32): (b: bool)
      ensures b
    {
      true
    }

    /** The one image, whatever the time point and the level. */
    function GetSource(t: Int32, level: Int32): (img: ProceduralImage)
      ensures img == rai
    {
      rai
    }

    function GetInterpolatedSource(t: Int32, level: Int32, m: Interpolation): (v: ProceduralView)
      ensures v.image == rai && v.interpolation == m
    {
      ZeroExtendedView(GetSource(t, level), m)
    }

    function GetType(): (p: PixelType)
      ensures p == UnsignedShort
    {
      UnsignedShort
    }

    function GetVoxelDimensions(): (d: VoxelDimensions)
      ensures d == PixelVoxels
    {
      PixelVoxels
    }

    /** As many levels as the constructor was given, although all show one image. */
    function NumMipmapLevels(): (n: int)
      ensures n == nLevels
    {
      nLevels
    }
  }

  /** `new GenerativeMultiResolutionSource(nLevels, name)`, with the cube side given. */
  function NewGenerativeSource(nLevels: Int32, name: string, side: int): (s: GenerativeSource)
    ensures s.nLevels == nLevels && s.name == name && s.rai.side == side
  {
    GenerativeSource(name, nLevels, ProceduralImage(side))
  }

  /** Every time point and every level see the same voxel values. */
  lemma LevelIndependent(s: GenerativeSource, t: Int32, level: Int32, t': Int32, level': Int32, m: Interpolation)
    ensures s.GetSource(t, level) == s.GetSource(t', level')
    ensures s.GetInterpolatedSource(t, level, m) == s.GetInterpolatedSource(t', level', m)
  {
  }

  /** Every voxel of the cube is a checkerboard value, 0 or 50000. */
  lemma VoxelsAreChecker(s: GenerativeSource, t: Int32, level: Int32, x: Int64, y: Int64, z: Int64)
    requires 0 <= x < s.rai.side && 0 <= y < s.rai.side && 0 <= z < s.rai.side
    ensures s.GetSource(t, level).At(x, y, z) == Checker(x, y, z)
  {
    PixelIsChecker(x, y, z);
  }

  /** Read through the zero extension, every integer position holds 0 or 50000. */
  lemma ViewValues(s: GenerativeSource, t: Int32, level: Int32, m: Interpolation, x: Int64, y: Int64, z: Int64)
    ensures var v := s.GetInterpolatedSource(t, level, m).At(x, y, z); v == 0 || v == Bright
  {
    if 0 <= x < s.rai.side && 0 <= y < s.rai.side && 0 <= z < s.rai.side {
      PixelIsChecker(x, y, z);
    }
  }
}

# Procedural sources and particle trails of the BigDataViewer demos

This project models, in Dafny, the parts of the BIOP BigDataViewer demo
repository that compute things instead of driving a viewer:

- **The three Game of Life sources** (`GameOfLifeSource`, `GameOfLifeSourcev1`,
  `GameOfLifeSourcev2`). They generate Conway's B3/S23 automaton on integer
  grids. A live cell holds 16 and a dead cell 0, so a neighbour sum of 32 or 48
  means 2 or 3 live neighbours.
  - The first two keep a table `time point -> generation`. The seed sits at key
    -1, and a missing generation is built from the one before it on first
    request.
  - The third builds one volume whose plane `z` is `z` steps from the seed.
  - Each lazily loaded cell image is modelled as a fully built grid
    (`Images.Image`, indexed `voxels[z][y][x]`).
  - A border extension is modelled as index clamping (`Images.Clamp`).
  - The shared rule lives in module `Life`. It is proved equal to an
    independent statement of Conway's rule (`Life.Conway`) on grids of 0s and 16s.
  - Each loader is a method that fills a tile buffer (`array2<int>`) row by
    row, x fastest, the order of a flat-iterable cursor. It is proved to write
    the generation the functions define.
- **The particles of the three Lorenz attractor demos**
  (`demos/DemoLorenzAttractorCommand.java:174-268`,
  `demos/LorenzAttractorCommand.java:130-226`,
  `ij2command/LorenzAttractorInAction.java:139-235`). The three files contain
  the same `Trail` and `Particle` classes, modelled once in module
  `Lorenz`.
  - A trail is a bounded newest-first list whose colour fades with the index.
    Its colour is computed in Java 32-bit arithmetic, with `java.awt.Color`'s
    range check.
  - A particle's step counter decides when the new position joins the trail.
- **`ReIndexedPyramidSource`**: the level-remapping source wrapper. A source is
  modelled as a record of the functions of its interface.
- **`GenerativeMultiResolutionSource`**: the 40-pixel checkerboard pixel
  function, in Java `long` arithmetic, and its level-independent accessors.
- **The deconvolution cache of `DemoLLS7ProcessingCommand.getDeconvolved`**:
  the list of one operation per time point, and the two-level
  `(time point, level)` table that builds each image once.

Module `Wrappers` holds the `Result` type. Its `Error` cases name the
exceptions the Java code throws. Module `JavaInt` holds Java's two's-complement
wrap-around and its division, which truncates toward zero.

Behaviour kept exactly as the code has it:

- `GameOfLifeSourcev1` takes every neighbour sum from plane z = 0 of the
  previous generation, through `Views.hyperSlice(iView, 2, 0)`. Only the centre
  value comes from the cell's own plane.
  - `GameOfLifeSourceV1.SinglePlaneGenerationsAgree` proves that for a
    one-plane seed v1 builds the same table as the first source.
  - `GameOfLifeSourceV1.V1DiffersOnTwoPlanes` exhibits a two-plane seed where
    the two differ.
- In the first two sources, `getSource(t, level)` with `level > 0` builds and
  stores the missing generations before it throws.
  - A negative level is accepted, because the code only rejects `level > 0`.
  - Below `t = -1` the recursion through `t - 1` never reaches a stored key.
    The model returns `Failure(StackOverflow)` and leaves the table unchanged.
- Plane 0 of the v2 volume is a verbatim copy of the seed's plane 0. Its values
  are not mapped to 0/16.

## Model

| member | source | states |
|---|---|---|
| Life.NextState | src/main/java/ch/epfl/biop/demos/utils/GameOfLifeSource.java:114-129 | the switch on the neighbour sum: the result is always 0 or 16; its meaning as Conway's rule is `Life.NextStateIsConway` |
| Life.NeighbourSum | src/main/java/ch/epfl/biop/demos/utils/GameOfLifeSource.java:105-113 | defines the eight offset reads of the border-extended plane, summed; on 0/16 planes `Life.SumIsSixteenTimesLive` relates it to live-neighbour counts |
| Life.StepPlaneFrom | src/main/java/ch/epfl/biop/demos/utils/GameOfLifeSource.java:102-130 | defines the loader's per-plane computation, centres and sums possibly from different planes; the result has the plane's dimensions, and its cells are given by `Life.StepPlaneFromAt` |
| Life.StepPlane | src/main/java/ch/epfl/biop/demos/utils/GameOfLifeSource.java:75-130 | defines one generation of one plane, with the result of the same dimensions; its cells are given by `Life.StepPlaneAt` and its Conway meaning by `Life.StepPlaneIsConway` |
| Life.StepPlaneFromAt | src/main/java/ch/epfl/biop/demos/utils/GameOfLifeSource.java:104-130 | each cell of a stepped plane is the B3/S23 decision on its centre and its clamped eight-neighbour sum |
| Life.StepPlaneAt | src/main/java/ch/epfl/biop/demos/utils/GameOfLifeSource.java:75-86 | a plane stepped on its own: each cell depends on the centre and the eight in-plane neighbours, an out-of-range x or y reading the nearest edge cell |
| Life.StepPlaneFromLiveOrDead | src/main/java/ch/epfl/biop/demos/utils/GameOfLifeSource.java:114-129 | every cell the rule writes is 0 or 16, whatever the input values |
| Life.SumIsSixteenTimesLive | src/main/java/ch/epfl/biop/demos/utils/GameOfLifeSource.java:105-113 | on a 0/16 plane the neighbour sum is 16 times the number of live neighbours, so 32 and 48 mean 2 and 3 |
| Life.NextStateIsConway | src/main/java/ch/epfl/biop/demos/utils/GameOfLifeSource.java:114-129 | on a 0/16 plane the switch on the sum is Conway's rule: born with 3 neighbours, survives with 2 or 3 |
| Life.StepPlaneIsConway | src/main/java/ch/epfl/biop/demos/utils/GameOfLifeSource.java:104-130 | on a 0/16 plane one step equals the independent reference definition of a Conway generation |
| GameOfLifeSource.Step | src/main/java/ch/epfl/biop/demos/utils/GameOfLifeSource.java:67-72 | a generation has exactly the dimensions of the one before and fills them |
| GameOfLifeSource.StepAt | src/main/java/ch/epfl/biop/demos/utils/GameOfLifeSource.java:75-130 | voxel (x, y, z) of the next generation is the rule applied within plane z only: z-planes evolve independently |
| GameOfLifeSource.Generation | src/main/java/ch/epfl/biop/demos/utils/GameOfLifeSource.java:61-72 | every generation, built from the seed step by step, keeps the seed's dimensions |
| GameOfLifeSource.GenerationsFollowConway | src/main/java/ch/epfl/biop/demos/utils/GameOfLifeSource.java:104-130 | from the first generation on every plane holds only 0 and 16, and each later generation is Conway's successor of the one before |
| GameOfLifeSource.NextCell | src/main/java/ch/epfl/biop/demos/utils/GameOfLifeSource.java:105-129 | one pass of the loader loop (eight offset reads, then the switch) yields the rule's value for that cell |
| GameOfLifeSource.FillTile | src/main/java/ch/epfl/biop/demos/utils/GameOfLifeSource.java:102-130 | the cursor loop fills every cell of the tile with the stepped plane's value at that position |
| GameOfLifeSource.LoadCell | src/main/java/ch/epfl/biop/demos/utils/GameOfLifeSource.java:89-132 | a loaded tile of plane z holds exactly plane z of the next generation |
| GameOfLifeSource.TableExtend | src/main/java/ch/epfl/biop/demos/utils/GameOfLifeSource.java:65-135 | storing the step of generation t - 1 under key t keeps the table holding exactly keys -1 .. t, each with its generation |
| GameOfLifeSource.GameOfLifeSource.constructor | src/main/java/ch/epfl/biop/demos/utils/GameOfLifeSource.java:46-50 | the table starts with the seed at key -1 and nothing else |
| GameOfLifeSource.GameOfLifeSource.IsPresent | src/main/java/ch/epfl/biop/demos/utils/GameOfLifeSource.java:53-55 | a time point is present exactly when it lies in 0 .. 4999 |
| GameOfLifeSource.GameOfLifeSource.NumMipmapLevels | src/main/java/ch/epfl/biop/demos/utils/GameOfLifeSource.java:172-175 | one resolution level |
| GameOfLifeSource.GameOfLifeSource.SourceTransform | src/main/java/ch/epfl/biop/demos/utils/GameOfLifeSource.java:153-155 | the transform is the identity |
| GameOfLifeSource.GameOfLifeSource.GetType | src/main/java/ch/epfl/biop/demos/utils/GameOfLifeSource.java:158-160 | unsigned byte pixels |
| GameOfLifeSource.GameOfLifeSource.GetName | src/main/java/ch/epfl/biop/demos/utils/GameOfLifeSource.java:163-165 | the name given to the constructor |
| GameOfLifeSource.GameOfLifeSource.GetVoxelDimensions | src/main/java/ch/epfl/biop/demos/utils/GameOfLifeSource.java:168-170 | unit "pixel", size 1 x 1 x 1 |
| GameOfLifeSource.GameOfLifeSource.BuildSources | src/main/java/ch/epfl/biop/demos/utils/GameOfLifeSource.java:61-136 | builds every missing key below t first, then key t; the table then holds keys -1 .. t with their generations and earlier entries unchanged |
| GameOfLifeSource.GameOfLifeSource.GetSource | src/main/java/ch/epfl/biop/demos/utils/GameOfLifeSource.java:139-145 | afterwards keys -1 .. t are stored and earlier entries unchanged; a stored key is not rebuilt; level > 0 fails after the build; otherwise returns the stored generation t + 1 of the seed |
| GameOfLifeSource.GameOfLifeSource.GetInterpolatedSource | src/main/java/ch/epfl/biop/demos/utils/GameOfLifeSource.java:148-150 | the zero-extended, interpolated view of `getSource(t, level)`, failing as it does; the table afterwards is exactly what `getSource` leaves (unchanged on a hit or below -1, otherwise keys -1 .. t added) |
| GameOfLifeSourceV1.StepV1 | src/main/java/ch/epfl/biop/demos/utils/GameOfLifeSourcev1.java:70-75 | a v1 generation keeps the previous dimensions and fills them |
| GameOfLifeSourceV1.GenerationV1 | src/main/java/ch/epfl/biop/demos/utils/GameOfLifeSourcev1.java:64-75 | every v1 generation keeps the seed's dimensions |
| GameOfLifeSourceV1.StepV1AgreesOnPlaneZero | src/main/java/ch/epfl/biop/demos/utils/GameOfLifeSourcev1.java:83-97 | plane 0 evolves exactly as under the plane-wise rule |
| GameOfLifeSourceV1.SinglePlaneGenerationsAgree | src/main/java/ch/epfl/biop/demos/utils/GameOfLifeSourcev1.java:64-104 | for a one-plane seed every v1 generation equals the first source's generation |
| GameOfLifeSourceV1.V1DiffersOnTwoPlanes | src/main/java/ch/epfl/biop/demos/utils/GameOfLifeSourcev1.java:83-93 | neighbour sums come from plane 0: an empty plane 1 gets a birth from a live cell of plane 0 |
| GameOfLifeSourceV1.WholeNeighbourhoodIsNeighbourSum | src/main/java/ch/epfl/biop/demos/utils/GameOfLifeSourcev1.java:86-92 | summing the 3 x 3 rectangle without its centre gives the eight-neighbour sum |
| GameOfLifeSourceV1.NeighbourhoodSum | src/main/java/ch/epfl/biop/demos/utils/GameOfLifeSourcev1.java:88-92 | the accumulation loop over the neighbourhood returns the eight-neighbour clamped sum |
| GameOfLifeSourceV1.NextCell | src/main/java/ch/epfl/biop/demos/utils/GameOfLifeSourcev1.java:89-97 | sum from one plane, centre from the cell's own plane, then the B3/S23 decision |
| GameOfLifeSourceV1.FillTile | src/main/java/ch/epfl/biop/demos/utils/GameOfLifeSourcev1.java:82-98 | the neighbourhood loop fills every cell of the tile with the v1 value at that position |
| GameOfLifeSourceV1.LoadCell | src/main/java/ch/epfl/biop/demos/utils/GameOfLifeSourcev1.java:79-100 | a loaded tile of plane z holds exactly plane z of the next v1 generation |
| GameOfLifeSourceV1.TableExtend | src/main/java/ch/epfl/biop/demos/utils/GameOfLifeSourcev1.java:68-103 | storing the v1 step of generation t - 1 under key t keeps the table holding exactly keys -1 .. t |
| GameOfLifeSourceV1.GameOfLifeSourceV1.constructor | src/main/java/ch/epfl/biop/demos/utils/GameOfLifeSourcev1.java:49-53 | the table starts with the seed at key -1 only |
| GameOfLifeSourceV1.GameOfLifeSourceV1.IsPresent | src/main/java/ch/epfl/biop/demos/utils/GameOfLifeSourcev1.java:56-58 | present exactly for 0 .. 4999 |
| GameOfLifeSourceV1.GameOfLifeSourceV1.NumMipmapLevels | src/main/java/ch/epfl/biop/demos/utils/GameOfLifeSourcev1.java:141-143 | one resolution level |
| GameOfLifeSourceV1.GameOfLifeSourceV1.SourceTransform | src/main/java/ch/epfl/biop/demos/utils/GameOfLifeSourcev1.java:121-123 | the identity transform |
| GameOfLifeSourceV1.GameOfLifeSourceV1.GetType | src/main/java/ch/epfl/biop/demos/utils/GameOfLifeSourcev1.java:126-128 | unsigned byte pixels |
| GameOfLifeSourceV1.GameOfLifeSourceV1.GetName | src/main/java/ch/epfl/biop/demos/utils/GameOfLifeSourcev1.java:131-133 | the constructor's name |
| GameOfLifeSourceV1.GameOfLifeSourceV1.GetVoxelDimensions | src/main/java/ch/epfl/biop/demos/utils/GameOfLifeSourcev1.java:136-138 | unit "pixel", size 1 x 1 x 1 |
| GameOfLifeSourceV1.GameOfLifeSourceV1.BuildSources | src/main/java/ch/epfl/biop/demos/utils/GameOfLifeSourcev1.java:64-104 | builds the missing keys below t, then t; keys -1 .. t are then stored, earlier entries unchanged |
| GameOfLifeSourceV1.GameOfLifeSourceV1.GetSource | src/main/java/ch/epfl/biop/demos/utils/GameOfLifeSourcev1.java:107-113 | same lazy contract as the first source, with v1 generations; level > 0 fails after the build |
| GameOfLifeSourceV1.GameOfLifeSourceV1.GetInterpolatedSource | src/main/java/ch/epfl/biop/demos/utils/GameOfLifeSourcev1.java:116-118 | the zero-extended view of `getSource(t, level)`, failing as it does; the table afterwards is exactly what `getSource` leaves (unchanged on a hit or below -1, otherwise keys -1 .. t added) |
| GameOfLifeSourceV2.Evolve | src/main/java/ch/epfl/biop/demos/utils/GameOfLifeSourcev2.java:96-128 | defines plane z of the volume as z plane-wise generations of the seed's plane 0, of the same dimensions; its properties are in `GameOfLifeSourceV2.BuildVolume`, `VolumeLiveOrDead` and `VolumeFollowsConway` |
| GameOfLifeSourceV2.BuildVolume | src/main/java/ch/epfl/biop/demos/utils/GameOfLifeSourcev2.java:70-133 | the volume has the seed's x and y sizes and maxStep planes; plane 0 is the seed's plane 0; plane z is the step of plane z - 1 |
| GameOfLifeSourceV2.VolumeLiveOrDead | src/main/java/ch/epfl/biop/demos/utils/GameOfLifeSourcev2.java:122-126 | every plane from 1 up to the last holds only 0 and 16 |
| GameOfLifeSourceV2.VolumeFollowsConway | src/main/java/ch/epfl/biop/demos/utils/GameOfLifeSourcev2.java:96-127 | from plane 1 on, each next plane is the Conway successor of the one before |
| GameOfLifeSourceV2.CopyTile | src/main/java/ch/epfl/biop/demos/utils/GameOfLifeSourcev2.java:84-91 | a tile of plane 0 is a verbatim copy of the seed |
| GameOfLifeSourceV2.NextPixel | src/main/java/ch/epfl/biop/demos/utils/GameOfLifeSourcev2.java:97-126 | the centre read, the eight clamped neighbour reads of plane z - 1 and the decision give the rule's value |
| GameOfLifeSourceV2.StepTile | src/main/java/ch/epfl/biop/demos/utils/GameOfLifeSourcev2.java:94-128 | the loop fills every cell of a tile of plane z with the step of plane z - 1 |
| GameOfLifeSourceV2.GameOfLifeSourceV2.constructor | src/main/java/ch/epfl/biop/demos/utils/GameOfLifeSourcev2.java:50-55 | the one volume is built from the seed and maxStep at construction |
| GameOfLifeSourceV2.GameOfLifeSourceV2.IsPresent | src/main/java/ch/epfl/biop/demos/utils/GameOfLifeSourcev2.java:58-60 | present exactly at time point 0 |
| GameOfLifeSourceV2.GameOfLifeSourceV2.NumMipmapLevels | src/main/java/ch/epfl/biop/demos/utils/GameOfLifeSourcev2.java:168-170 | one resolution level |
| GameOfLifeSourceV2.GameOfLifeSourceV2.SourceTransform | src/main/java/ch/epfl/biop/demos/utils/GameOfLifeSourcev2.java:148-150 | the identity transform |
| GameOfLifeSourceV2.GameOfLifeSourceV2.GetType | src/main/java/ch/epfl/biop/demos/utils/GameOfLifeSourcev2.java:153-155 | unsigned short pixels |
| GameOfLifeSourceV2.GameOfLifeSourceV2.GetName | src/main/java/ch/epfl/biop/demos/utils/GameOfLifeSourcev2.java:158-160 | the constructor's name |
| GameOfLifeSourceV2.GameOfLifeSourceV2.GetVoxelDimensions | src/main/java/ch/epfl/biop/demos/utils/GameOfLifeSourcev2.java:163-165 | unit "pixel", size 1 x 1 x 1 |
| GameOfLifeSourceV2.GameOfLifeSourceV2.GetSource | src/main/java/ch/epfl/biop/demos/utils/GameOfLifeSourcev2.java:136-140 | succeeds exactly for t == 0 and level <= 0, throwing the time-point error first; returns the built volume, whose plane z is the seed after z steps |
| GameOfLifeSourceV2.GameOfLifeSourceV2.GetInterpolatedSource | src/main/java/ch/epfl/biop/demos/utils/GameOfLifeSourcev2.java:143-145 | the zero-extended view of the volume, failing exactly as `getSource` does |
| GameOfLifeSourceV2.GameOfLifeSourceV2.LoadCell | src/main/java/ch/epfl/biop/demos/utils/GameOfLifeSourcev2.java:79-130 | a loaded tile of plane z holds exactly that region of the volume: the seed copy for plane 0, the step of plane z - 1 otherwise |
| Lorenz.NewColor | src/main/java/ch/epfl/biop/demos/DemoLorenzAttractorCommand.java:187 | a colour is made exactly when every component lies in 0 .. 255, and then holds those components |
| Lorenz.Window | src/main/java/ch/epfl/biop/demos/DemoLorenzAttractorCommand.java:190-197 | after n additions the trail holds min(n, length) points, the i-th being the i-th newest |
| Lorenz.WindowAdd | src/main/java/ch/epfl/biop/demos/DemoLorenzAttractorCommand.java:192-197 | adding a point puts it first and, over capacity, drops exactly the oldest one |
| Lorenz.Trail.constructor | src/main/java/ch/epfl/biop/demos/LorenzAttractorCommand.java:135-142 | capacity and colour components are stored; the trail is empty |
| Lorenz.Trail.AddPoint | src/main/java/ch/epfl/biop/demos/LorenzAttractorCommand.java:150-155 | the copy goes in front, the last point is removed when the size exceeds the capacity, and the trail is still the newest-first window of all added points |
| Lorenz.Trail.GetPoints | src/main/java/ch/epfl/biop/ij2command/LorenzAttractorInAction.java:166-168 | a copy holding the last min(n, length) added points, newest first |
| Lorenz.Trail.GetColor | src/main/java/ch/epfl/biop/ij2command/LorenzAttractorInAction.java:153-155 | the trail colour with alpha `255 - a * index / length` in 32-bit arithmetic; fails on a zero length or an alpha outside 0 .. 255 |
| Lorenz.Trail.ColorsOfHeldPoints | src/main/java/ch/epfl/biop/demos/DemoLorenzAttractorCommand.java:186-188 | for indices below the capacity the colour is valid, keeps r, g, b, and its alpha lies in [255 - a, 255] and does not grow with the index |
| Lorenz.Alpha | src/main/java/ch/epfl/biop/ij2command/LorenzAttractorInAction.java:153-155 | defines `255 - (a * index / length)` in 32-bit arithmetic with truncating division; properties in `Lorenz.AlphaWithoutOverflow`, `Lorenz.AlphaInRange` and `Lorenz.AlphaFades` |
| Lorenz.AlphaWithoutOverflow | src/main/java/ch/epfl/biop/demos/LorenzAttractorCommand.java:144-146 | when a * index cannot overflow, the 32-bit alpha is the plain integer expression |
| Lorenz.AlphaInRange | src/main/java/ch/epfl/biop/demos/DemoLorenzAttractorCommand.java:186-188 | for 0 <= index < length the alpha lies in [255 - a, 255], above 255 - a when a > 0, and is 255 at index 0 |
| Lorenz.AlphaFades | src/main/java/ch/epfl/biop/ij2command/LorenzAttractorInAction.java:153-155 | the alpha is non-increasing in the index |
| Lorenz.Particle.constructor | src/main/java/ch/epfl/biop/demos/DemoLorenzAttractorCommand.java:213-222 | position set, trail of capacity 900 in the particle's colour, trailStep 1, counter 0 |
| Lorenz.Particle.Step | src/main/java/ch/epfl/biop/demos/DemoLorenzAttractorCommand.java:263-267 | the position advances and the counter grows; when it reaches trailStep it resets to 0 and the new position is added, otherwise the trail is unchanged |
| Lorenz.Particle.TrailHoldsLatestPositions | src/main/java/ch/epfl/biop/ij2command/LorenzAttractorInAction.java:176-188 | with trailStep 1, after n steps the trail holds min(n, 900) positions, the current one first |
| ReIndexedPyramid.SourceLevel | src/main/java/ch/epfl/biop/demos/utils/ReIndexedPyramidSource.java:30 | the list lookup succeeds exactly for levels 0 .. size-1, with the stored entry |
| ReIndexedPyramid.ReIndexed | src/main/java/ch/epfl/biop/demos/utils/ReIndexedPyramidSource.java:17-61 | the wrapper has as many levels as the mapping has entries; presence, type, name and voxel dimensions are the origin's |
| ReIndexedPyramid.ReIndexedLevel | src/main/java/ch/epfl/biop/demos/utils/ReIndexedPyramidSource.java:29-41 | image, interpolated view and transform at a level are the origin's at the mapped level, with t and the interpolation unchanged; a level outside the list fails |
| ReIndexedPyramid.ReIndexedTwice | src/main/java/ch/epfl/biop/demos/utils/ReIndexedPyramidSource.java:29-41 | wrapping a wrapper equals one wrapper with the composed mapping |
| ReIndexedPyramid.ReIndexedIdentity | src/main/java/ch/epfl/biop/demos/utils/ReIndexedPyramidSource.java:24-61 | the mapping 0 .. n-1 reproduces the origin on all its levels |
| ReIndexedPyramid.TopAndBottomLevels | src/main/java/ch/epfl/biop/demos/DemoResolutionLevelOnDatasetCommand.java:121-144 | the top wrapper's only level is origin level 0, the bottom wrapper's is the origin's last level, any other level fails |
| Generative.StoreUnsignedShort | src/main/java/ch/epfl/biop/ij2command/GenerativeMultiResolutionSource.java:30 | the stored value is in 0 .. 65535 and equals the int when that is already in range |
| Generative.Pixel | src/main/java/ch/epfl/biop/ij2command/GenerativeMultiResolutionSource.java:30 | defines the pixel lambda in Java long / int arithmetic and unsigned-short storage; the value is in 0 .. 65535, and `Generative.PixelIsChecker` gives its checkerboard meaning |
| Generative.Checker | src/main/java/ch/epfl/biop/ij2command/GenerativeMultiResolutionSource.java:29-31 | the checkerboard reference value is 0 or 50000 |
| Generative.PixelIsChecker | src/main/java/ch/epfl/biop/ij2command/GenerativeMultiResolutionSource.java:29-31 | at a non-negative position the Java long / int / unsigned-short computation gives the checkerboard value, 0 or 50000 |
| Generative.PixelDependsOnBlocks | src/main/java/ch/epfl/biop/ij2command/GenerativeMultiResolutionSource.java:30 | positions with the same block indices have the same value |
| Generative.CheckerAlternates | src/main/java/ch/epfl/biop/ij2command/GenerativeMultiResolutionSource.java:30 | one block further along any one axis the checkerboard flips, two blocks further it is back |
| Generative.PixelAlternates | src/main/java/ch/epfl/biop/ij2command/GenerativeMultiResolutionSource.java:29-31 | at non-negative positions, moving 40 along any one axis (x, y or z) flips the pixel and moving 80 restores it, while the moved coordinate stays a Java long |
| Generative.NegativeBlockWraps | src/main/java/ch/epfl/biop/ij2command/GenerativeMultiResolutionSource.java:30 | illustrates the Java arithmetic only: at x = -40 the truncating remainder gives -50000, stored as 15536, a value the source never reads because the zero-extended view answers 0 there |
| Generative.ProceduralImage.At | src/main/java/ch/epfl/biop/ij2command/GenerativeMultiResolutionSource.java:29-33 | defines the cube's voxel as the pixel function; `Generative.VoxelsAreChecker` states its values |
| Generative.ProceduralView.At | src/main/java/ch/epfl/biop/ij2command/GenerativeMultiResolutionSource.java:49-53 | defines the zero extension read at integer positions; `Generative.ViewValues` and `Generative.NegativeBlockWraps` state its values |
| Generative.GenerativeSource.IsPresent | src/main/java/ch/epfl/biop/ij2command/GenerativeMultiResolutionSource.java:37-39 | every time point is present |
| Generative.GenerativeSource.GetSource | src/main/java/ch/epfl/biop/ij2command/GenerativeMultiResolutionSource.java:42-44 | the one image, for every t and level |
| Generative.GenerativeSource.GetInterpolatedSource | src/main/java/ch/epfl/biop/ij2command/GenerativeMultiResolutionSource.java:49-53 | the zero-extended view of that image with the requested interpolation |
| Generative.GenerativeSource.GetType | src/main/java/ch/epfl/biop/ij2command/GenerativeMultiResolutionSource.java:62-64 | unsigned short pixels |
| Generative.GenerativeSource.GetVoxelDimensions | src/main/java/ch/epfl/biop/ij2command/GenerativeMultiResolutionSource.java:72-74 | unit "pixel", size 1 x 1 x 1 |
| Generative.GenerativeSource.NumMipmapLevels | src/main/java/ch/epfl/biop/ij2command/GenerativeMultiResolutionSource.java:77-79 | the constructor's nLevels |
| Generative.NewGenerativeSource | src/main/java/ch/epfl/biop/ij2command/GenerativeMultiResolutionSource.java:24-34 | name and level count are stored, the image is the cube of the pixel function |
| Generative.LevelIndependent | src/main/java/ch/epfl/biop/ij2command/GenerativeMultiResolutionSource.java:42-53 | any two time points and levels give the same image, and the same view for every interpolation |
| Generative.VoxelsAreChecker | src/main/java/ch/epfl/biop/ij2command/GenerativeMultiResolutionSource.java:29-33 | every voxel of the cube is the checkerboard value |
| Generative.ViewValues | src/main/java/ch/epfl/biop/ij2command/GenerativeMultiResolutionSource.java:49-53 | read through the zero extension, every integer position holds 0 or 50000 |
| DeconvolutionCache.BuildOps | src/main/java/ch/epfl/biop/demos/DemoLLS7ProcessingCommand.java:155-163 | exactly one operation per time point 0 .. numTimepoints-1, in order, each bound to that time point's level-0 image |
| DeconvolutionCache.BuildSource | src/main/java/ch/epfl/biop/demos/DemoLLS7ProcessingCommand.java:171-180 | the built image's grid has the input's dimensions and the supplied cell dimensions, and it is tied to its time point and level |
| DeconvolutionCache.AfterProcess | src/main/java/ch/epfl/biop/demos/DemoLLS7ProcessingCommand.java:184-192 | defines the table after one `process` call; its properties are in `ProcessStores`, `ProcessKeepsOthers`, `ProcessHit`, `ProcessIdempotent` and `ProcessBuildsOnce` |
| DeconvolutionCache.ProcessStores | src/main/java/ch/epfl/biop/demos/DemoLLS7ProcessingCommand.java:184-192 | after a call the pair is cached, holding the earlier image on a hit and a freshly built one on a miss |
| DeconvolutionCache.ProcessKeepsOthers | src/main/java/ch/epfl/biop/demos/DemoLLS7ProcessingCommand.java:185-190 | every other pair keeps its presence and its image |
| DeconvolutionCache.ProcessHit | src/main/java/ch/epfl/biop/demos/DemoLLS7ProcessingCommand.java:185-191 | a call for a cached pair leaves the table unchanged |
| DeconvolutionCache.ProcessIdempotent | src/main/java/ch/epfl/biop/demos/DemoLLS7ProcessingCommand.java:188-191 | a second call for the same pair, even with another input image, returns the first result and changes nothing |
| DeconvolutionCache.ProcessBuildsOnce | src/main/java/ch/epfl/biop/demos/DemoLLS7ProcessingCommand.java:184-192 | the list of builds stays free of repeats and names exactly the cached pairs; only a miss adds one |
| DeconvolutionCache.Deconvolver.constructor | src/main/java/ch/epfl/biop/demos/DemoLLS7ProcessingCommand.java:167-168 | the table starts empty |
| DeconvolutionCache.Deconvolver.Process | src/main/java/ch/epfl/biop/demos/DemoLLS7ProcessingCommand.java:184-192 | the new table is the old one plus at most this pair; a hit returns the stored image and builds nothing; a miss builds once from `rai` and stores it |

## Left out

- The viewer side of every source is left out: caches, volatile wrapping,
  shared queues, cell loading on demand and display. Each source's images are
  fully built grids, and each loader method fills one tile buffer.
- Pixel types are left out. Grids hold unbounded integers, with no unsigned
  byte or unsigned short range. The rule only ever writes 0 or 16, and the
  seed copy of `GameOfLifeSourcev2` stays within one type, so nothing wraps.
- Image origins are taken to be zero and the tiles to lie inside the image. The
  Java code takes both from the image library.
- The seed is taken to be a fixed image. The demo that builds these sources
  passes a function image that draws a new random value on every read, so
  repeated reads of one seed position need not agree there. The model assumes
  they do.
- Java's real stack depth is left out. The lazy table recursion is taken to go
  as deep as `t` needs.
- `getSourceTransform` writes into a transform passed in. The model returns the
  transform instead.
- GameOfLifeSourceV2.GameOfLifeSourceV2.constructor: `maxStep` is a natural
  number. A negative `maxStep` would make the image library refuse the grid,
  and that refusal is not modelled. The seed must also have a plane 0
  (`seed.dims.z >= 1`, a requires of the constructor and of
  `GameOfLifeSourceV2.BuildVolume`). The Java constructor accepts a seed
  without planes, because it uses only the seed's x and y sizes. Only the copy
  loop of plane 0 would then read outside the seed, when a tile is loaded.
  That case, and its failure, is not modelled.
- The Runge-Kutta position update of `Particle.step`, and the vector fields
  behind it, are floating-point code. `Lorenz.Particle.Step` takes the update as
  a function parameter.
- The parts of the Lorenz demos that draw trails, run the animation thread or
  handle `synchronized` access are left out.
- The `color` field of `Trail` in two of the three files is written once and
  never read. It is left out.
- Lorenz.AlphaInRange, Lorenz.AlphaFades, Lorenz.Trail.ColorsOfHeldPoints: they
  are stated for lengths up to 8421504 (`Integer.MAX_VALUE / 255`), where
  `a * index` cannot overflow. The trails have length 900. AlphaInRange and
  ColorsOfHeldPoints also admit alpha 255 - a when a = 0, where the open bound
  (255 - a, 255] cannot hold.
- ReIndexedPyramid.ReIndexed: a `null` entry in the level list is not
  modelled; its unboxing would throw.
- `getType` of the re-indexed source is modelled as the origin's pixel-type
  field, because there are no Java objects here.
- Generative.ProceduralView, Generative.ViewValues: interpolation between
  voxels is not modelled. The view is read only at integer positions, where
  both interpolators return the voxel itself. At a real position between two
  blocks the n-linear view would return a mix of 0 and 50000, such as 25000.
- The cube side of `GenerativeMultiResolutionSource`, `(long) Math.pow(2,
  nLevels)`, is floating-point code. It is a parameter of
  `Generative.NewGenerativeSource`.
- `getSourceTransform` of `GenerativeMultiResolutionSource` is left out. Its
  scale comes from `Math.pow`.
- The CLIJ Richardson-Lucy operations are opaque. `DeconvolutionCache.Op` only
  records the image an operation is bound to.
- The cell loader of a built image calls `ops.get(t)` and would fail lazily
  for a time point outside the list. The loader is not modelled.
- `SourceAndConverterHelper.getMaxTimepoint` is an input of
  `DeconvolutionCache.BuildOps`.
- The concurrent maps and `synchronized` methods are modelled sequentially.

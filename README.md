# Avalanche mass-movement engine, modelled in Dafny

This project models the core of a particle-based avalanche simulator written in
C++. Particles are spawned from a start-zone raster over a terrain height map.
Each update step does four things to every particle:

- it falls under gravity;
- it is traced along its step against the terrain;
- it is damped in free flight, or bounced where it hits;
- it is moved.

After the move, the particle is registered into four buckets of a coarse grid, and a
deposit proportional to the local density and to the horizontal speed is added to a
force-map raster. After all particles, a grid pass pulls every bucket's particles
towards their average velocity, by viscosity and clumping.

Beside the engine, the project models the pieces it stands on:

- the 1-D/2-D array container `arrayx`;
- the image container `ximage`: pixel addressing, the per-format channel codecs, fill and clear;
- the clamp and random helpers of `xmath.h`;
- the ASCII elevation-grid load, the surface normal and the grid-stepping ray trace of the terrain;
- the key-value settings parser;
- the CSV line splitter;
- the genetic optimiser of the simulation parameters, with the fitness passed in as a function;
- the marching-squares case table, the contour loops and the polygon merge.

One module per source file, plus two small shared modules:

| module | file | models |
|---|---|---|
| `Wrappers` | wrappers.dfy | `Option` |
| `XMath` | xmath.dfy | `fclamp`, `clamp`, `frand`, float-to-int truncation |
| `ArrayX` | arrayx.dfy | `arrayx<T>` as a class over an `array` |
| `Vectors` | vectors.dfy | `vec2`/`vec3` over `real`, length and normalisation |
| `XImage` | ximage.dfy | `ximage` as a class over a byte `array` |
| `Terrain` | terrain.dfy | `Terrain`: load, normal, trace |
| `Settings` | settings.dfy | `SimulationSettings` and `parseSettings` |
| `Particles` | particles.dfy | the per-particle physics of `updateParticle` |
| `ParticleGrid` | particlegrid.dfy | bucket registration, density, the grid pass |
| `ForceMap` | forcemap.dfy | the force-map deposit |
| `StartZone` | startzone.dfy | the particle spawning of `initParticles` |
| `MassMovement` | massmovement.dfy | `MassMovementSimulation` as a class |
| `CsvLoad` | csvload.dfy | `csvLoad` |
| `Genetic` | genetic.dfy | `Gene`, `combine`, `crossover`, `runGA`, the initial population |
| `MarchingSquares` | marchingsquares.dfy | `Polygon2d`, `marchingSquares`, `reducePolygons` |

How the model treats the parts it cannot run:

- Numbers are mathematical.
  - `float` and `double` become `real`.
  - A C++ conversion of a float to `int` is truncation toward zero (`XMath.Trunc`).
  - The `unsigned` conversions that matter are written out (`XImage.U16`, `XImage.U32`).
- Square roots come from a supplied function `sqrt` that satisfies `Vectors.IsSqrt`, i.e. it returns the non-negative root.
- Every `rand()` value is the next entry of a supplied stream `rand: nat -> nat`, read from a draw index on.
  - `frand()` is `XMath.Frand` of such a value.
  - Each method returns the next unused draw index of the draws it models. The genetic algorithm is the exception: there the model's stream leaves out the draws that fitness evaluation makes (see `evalFitness` under "## Left out").
- A file is given as its contents:
  - the elevation grid values;
  - the start-zone image;
  - the settings lines, split into tokens;
  - the CSV lines.

  A file that does not open is `None`.

## Model

| member | source | states |
|---|---|---|
| XMath.FClamp | simulation-app/libs/xlib/xmath.h:7-11 | below `min` gives `min`, else above `max` gives `max`, else `x` itself |
| XMath.FClampBounds | simulation-app/libs/xlib/xmath.h:7-11 | for `lo <= hi` the result lies in [lo, hi], and it equals `x` exactly when `x` is in [lo, hi] |
| XMath.FClampIdempotent | simulation-app/libs/xlib/xmath.h:7-11 | clamping twice is clamping once |
| XMath.Clamp | simulation-app/libs/xlib/xmath.h:17-21 | the template over any `operator<`: below gives `min`, above gives `max`, otherwise the value |
| XMath.ClampBounds | simulation-app/libs/xlib/xmath.h:17-21 | over a strict total order with `!(hi < lo)`, the result lies between the bounds and equals the value exactly when the value does |
| XMath.ClampIdempotent | simulation-app/libs/xlib/xmath.h:17-21 | clamping twice is clamping once, for any strict total order |
| XMath.ClampInt | simulation-app/libs/xlib/xmath.h:17-21 | the `int` instance lies in [lo, hi] when `lo <= hi`, and is the value when that lies in range |
| XMath.ClampIntIsClamp | simulation-app/libs/xlib/xmath.h:17-21 | the `int` instance is the template at `<` on `int` |
| XMath.Frand | simulation-app/libs/xlib/xmath.h:13-15 | the result lies in [0, 1] and is one of the 2048 values k/2047 |
| XMath.FrandValues | simulation-app/libs/xlib/xmath.h:13-15 | `frand` gives k/2047 exactly for the `rand()` values congruent to k modulo 2048 |
| XMath.Trunc | avalanche_sim_xlib_slim/avalance_sim/avalance_sim/headers/core/massmovementsimulation.h:95-96 | a float-to-`int` conversion rounds toward zero: within 1 of `x`, on the side of 0 |
| XMath.TruncNonZero | avalanche_sim_xlib_slim/avalance_sim/avalance_sim/headers/terrain/terrain.h:206-213 | `(int)e` is non-zero exactly when `e <= -1` or `1 <= e` (the step test of `trace`) |
| ArrayX.IndexInRange | avalanche_sim_xlib_slim/avalance_sim/avalance_sim/arrayx.h:175-180 | an in-range cell (x, y) has the position `x * ysize + y` below `xsize * ysize` |
| ArrayX.Cell | avalanche_sim_xlib_slim/avalance_sim/avalance_sim/arrayx.h:175-180 | cell (x, y) of an `xsize` by `ysize` array is element `x * ysize + y`, inside the buffer |
| ArrayX.IndexInjective | avalanche_sim_xlib_slim/avalance_sim/avalance_sim/arrayx.h:175-180 | distinct in-range cells have distinct buffer positions |
| ArrayX.IndexOrdered | avalanche_sim_xlib_slim/avalance_sim/avalance_sim/arrayx.h:175-180 | every cell of a later row lies after every cell of an earlier row |
| ArrayX.ReversedTwice | avalanche_sim_xlib_slim/avalance_sim/avalance_sim/arrayx.h:149-153 | reversing twice gives back the sequence |
| ArrayX.XArray.constructor | avalanche_sim_xlib_slim/avalance_sim/avalance_sim/arrayx.h:23-27 | the default array is 0 by 1 and empty |
| ArrayX.XArray.OfLength | avalanche_sim_xlib_slim/avalance_sim/avalance_sim/arrayx.h:36-40 | a 1-D array of `n` elements |
| ArrayX.XArray.OfShape | avalanche_sim_xlib_slim/avalance_sim/avalance_sim/arrayx.h:41-45 | the 2-D array has shape `xs` by `ys` and `xs * ys` elements |
| ArrayX.XArray.Copy | avalanche_sim_xlib_slim/avalance_sim/avalance_sim/arrayx.h:28-35 | the copy has the shape and the elements of the original, in a fresh buffer |
| ArrayX.XArray.FromArray | avalanche_sim_xlib_slim/avalance_sim/avalance_sim/arrayx.h:46-51 | a 1-D array holding the first `n` elements of the C array |
| ArrayX.XArray.At | avalanche_sim_xlib_slim/avalance_sim/avalance_sim/arrayx.h:181-186 | `operator()(x, y)` reads element `x * ysize + y` |
| ArrayX.XArray.Set | avalanche_sim_xlib_slim/avalance_sim/avalance_sim/arrayx.h:175-180 | a write through `operator()(x, y)` changes element `x * ysize + y` and no other |
| ArrayX.XArray.Fill | avalanche_sim_xlib_slim/avalance_sim/avalance_sim/arrayx.h:92-96 | every element becomes `val`; the size stays |
| ArrayX.XArray.Clear | avalanche_sim_xlib_slim/avalance_sim/avalance_sim/arrayx.h:97-103 | the array becomes 0 by 1 with no elements |
| ArrayX.XArray.PushBack | avalanche_sim_xlib_slim/avalance_sim/avalance_sim/arrayx.h:112-123 | on a 1-D array `val` is appended and the old elements are kept; on a 2-D array nothing changes |
| ArrayX.XArray.PushFront | avalanche_sim_xlib_slim/avalance_sim/avalance_sim/arrayx.h:124-133 | on a 1-D array `val` comes first and the old elements follow; on a 2-D array nothing changes |
| ArrayX.XArray.Remove | avalanche_sim_xlib_slim/avalance_sim/avalance_sim/arrayx.h:143-147 | on a 1-D array element `index` is dropped and the later ones move left by one; on a 2-D array nothing changes |
| ArrayX.XArray.Swap | avalanche_sim_xlib_slim/avalance_sim/avalance_sim/arrayx.h:154-158 | the two elements are exchanged and every other element is unchanged |
| ArrayX.XArray.Swap2 | avalanche_sim_xlib_slim/avalance_sim/avalance_sim/arrayx.h:159-163 | the two cells are exchanged and every other element is unchanged |
| ArrayX.XArray.Reverse | avalanche_sim_xlib_slim/avalance_sim/avalance_sim/arrayx.h:149-153 | the elements end up in reverse order: element i moves to position size - 1 - i |
| ArrayX.Equal | avalanche_sim_xlib_slim/avalance_sim/avalance_sim/arrayx.h:188-194 | with the loop bound the size check implies: true exactly when the element sequences are equal |
| ArrayX.EqualAsWritten | avalanche_sim_xlib_slim/avalance_sim/avalance_sim/arrayx.h:188-194 | `operator==` as written: false for different sizes; when the loop bound `xa.xsize * xb.xsize` fits, true exactly when the elements below it agree; when it exceeds the size, it reads past the elements exactly when all elements agree |
| ArrayX.CompareFrom | avalanche_sim_xlib_slim/avalance_sim/avalance_sim/arrayx.h:190-192 | the loop from position i to n: true exactly when the elements agree there, a read past the elements exactly when n exceeds the size and all later elements agree |
| ArrayX.EqualAsWrittenMissesElements | avalanche_sim_xlib_slim/avalance_sim/avalance_sim/arrayx.h:190 | two 1-by-2 arrays that differ in their second element compare equal |
| ArrayX.EqualAsWrittenReadsPastEnd | avalanche_sim_xlib_slim/avalance_sim/avalance_sim/arrayx.h:188-194 | two equal 1-D arrays of at least two elements make the loop read past both arrays' elements |
| ArrayX.MoveSource | avalanche_sim_xlib_slim/avalance_sim/avalance_sim/arrayx.h:145 | the range a `memmove` reads is available exactly when it ends within the elements, and then holds them in order |
| ArrayX.RemoveMoveReadsPastEnd | avalanche_sim_xlib_slim/avalance_sim/avalance_sim/arrayx.h:145 | on any 1-D array, the `memmove` of `remove(index)` with `xsize - index` elements reads past the elements, while `xsize - index - 1` elements are exactly those after `index` |
| Vectors.LengthSqrZero | avalanche_sim_xlib_slim/avalance_sim/avalance_sim/vectorx.h:365-367 | the squared length is never negative, and is zero exactly for the zero vector |
| Vectors.Length | avalanche_sim_xlib_slim/avalance_sim/avalance_sim/vectorx.h:362-364 | `length()` is non-negative, squares to the squared length, and is zero exactly for the zero vector |
| Vectors.Normalized | avalanche_sim_xlib_slim/avalance_sim/avalance_sim/vectorx.h:355-361 | a non-zero vector normalises to unit length; the zero vector stays zero; every component keeps its sign |
| Vectors.NormalizingFactor | avalanche_sim_xlib_slim/avalance_sim/avalance_sim/vectorx.h:355-361 | a non-zero vector is normalised by multiplying it by a positive factor |
| XImage.DecompOf | xlib-slim/ximage.h:443-481 | each of RGB24, RGBAFLOAT32 and GRAYSCALE_FLOAT32 installs its own callbacks; every other format, 8-bit grayscale included, installs the RGBA32 ones |
| XImage.ChannelNormalized | xlib-slim/ximage.h:322-325 | a stored byte channel reads as byte/255, in [0, 1]; RGBA32 answers 255 for a channel above 3, RGB24 answers 1 for one above 2; 8-bit grayscale answers its one byte for every channel |
| XImage.StoredByte | xlib-slim/ximage.h:336-340 | a value is stored as `value * 255` clamped into [0, 255] and truncated |
| XImage.StoredByteRoundTrip | xlib-slim/ximage.h:322-341 | storing the value a byte reads as gives back that byte |
| XImage.SetChannel | xlib-slim/ximage.h:335-341 | the RGBA32 and RGB24 setters change only the named channel, to the stored byte, and ignore channels the format lacks |
| XImage.SetThenGetChannel | xlib-slim/ximage.h:322-341 | after setting a stored channel, reading it gives the stored byte over 255 |
| XImage.GetThenSetChannel | xlib-slim/ximage.h:322-341 | writing back the value a channel reads leaves the pixel unchanged |
| XImage.Gray8StoreAsWritten | xlib-slim/ximage.h:377-380 | the 8-bit grayscale setter stores the four bytes of a `float` at the pixel's offset, which fits exactly when four bytes remain in the buffer |
| XImage.Gray8SetterWritesPastPixel | xlib-slim/ximage.h:377-380 | in an 8-bit grayscale buffer the last voxel is the last byte, so the setter as written runs past the buffer there; the corrected setter replaces the one byte |
| XImage.SetVoxelEncodes | xlib-slim/ximage.h:808-814 | whatever bytes a pixel held, `setVoxel` leaves the encoding of the colour in it |
| XImage.EncodeDecode | xlib-slim/ximage.h:796-814 | encoding the colour `getVoxel` decodes from a pixel gives back that pixel's bytes |
| XImage.DecodeEncode | xlib-slim/ximage.h:796-814 | decoding an encoded colour gives each stored channel as its stored byte over 255 |
| XImage.Encode | xlib-slim/ximage.h:808-814 | an encoded pixel has exactly the format's pixel size |
| XImage.SetVoxelBytes | xlib-slim/ximage.h:808-814 | setting channels 3, 2, 1, 0 in turn keeps the pixel size; `SetVoxelEncodes` proves it leaves the encoding |
| XImage.Decode | xlib-slim/ximage.h:796-807 | the decoded channels lie in [0, 1]; an RGB24 pixel has w = 1 |
| XImage.U16 | xlib-slim/ximage.h:61-64 | the `unsigned short` dimension fields hold the value modulo 2^16 |
| XImage.U32 | xlib-slim/ximage.h:491-493 | the `unsigned int` conversion is the value modulo 2^32 |
| XImage.Wrap | xlib-slim/ximage.h:491-493 | a wrapped coordinate lies below the dimension, and an in-range coordinate is unchanged |
| XImage.WrapPeriodic | xlib-slim/ximage.h:491-493 | non-negative coordinates wrap with the period of the dimension |
| XImage.VoxelIndexInRange | xlib-slim/ximage.h:494 | an in-range voxel lies below the voxel count |
| XImage.VoxelIndexInjective | xlib-slim/ximage.h:494 | distinct in-range voxels have distinct positions |
| XImage.VoxelIndexRowMajor | xlib-slim/ximage.h:494 | a voxel is the element `(dep * height + row) * width + col` of one row-major array |
| XImage.PixelOffset | xlib-slim/ximage.h:490-495 | `_getPixelOffset` is a multiple of the pixel size, and a whole pixel fits below `width * height * depth * pixelSize` |
| XImage.PixelOffsetInRange | xlib-slim/ximage.h:490-495 | for in-range coordinates the offset is `(dep * w * h + row * w + col) * pixelSize` |
| XImage.PixelOffsetPeriodic | xlib-slim/ximage.h:490-495 | adding the height to a non-negative row gives the same offset |
| XImage.NegativeRowWraps | xlib-slim/ximage.h:491 | the unsigned conversion comes before the modulo: row -1 of a 2-row image is its last row, but row -1 of a 3-row image is row 0, not row 2 |
| XImage.OffsetsDisjoint | xlib-slim/ximage.h:490-495 | the pixels of distinct in-range voxels do not overlap |
| XImage.BmpRowSize | xlib-slim/ximage.h:1213 | a BMP row is a multiple of 4 bytes, and holds `bbp * width` bits with less than 32 bits to spare |
| XImage.BmpRowFitsPixels | xlib-slim/ximage.h:1211-1213 | with `bbp = 8 * pixelSize`, a row holds every pixel's bytes plus at most 3 bytes of padding |
| XImage.Image.constructor | xlib-slim/ximage.h:505-507 | the default image is 0 by 0 by 1, RGBA32, with no data |
| XImage.Image.Sized | xlib-slim/ximage.h:512-521 | the dimensions and the format are stored as `unsigned short`, the format's callbacks are installed, and the buffer has `width * height * depth * pixelSize` bytes |
| XImage.Image.Voxel | xlib-slim/ximage.h:1123-1128 | `operator()` points at the bytes of the wrapped voxel |
| XImage.Image.GetVoxel | xlib-slim/ximage.h:796-807 | the decoded colour, whose encoding is the voxel's bytes, with channels in [0, 1] |
| XImage.Image.SetPixelChannel | xlib-slim/ximage.h:500-502 | the pixel at the offset takes the channel's new value and no other byte changes |
| XImage.Image.SetVoxel | xlib-slim/ximage.h:808-814 | the wrapped voxel holds the colour's encoding and no other byte changes |
| XImage.Image.SetVoxelFrame | xlib-slim/ximage.h:808-814 | setting an in-range voxel leaves every other in-range voxel unchanged |
| XImage.Image.FillDepths | xlib-slim/ximage.h:826-828 | the innermost fill loop sets every depth of voxel (i, j) and changes no other voxel |
| XImage.Image.FillColumn | xlib-slim/ximage.h:825-829 | the middle fill loop sets every voxel of column i and changes no other voxel |
| XImage.Image.Fill | xlib-slim/ximage.h:823-831 | after `fill`, every voxel holds the colour's encoding |
| XImage.Image.FillReadsBack | xlib-slim/ximage.h:823-831 | after an RGBA32 fill, every voxel reads back the colour with each channel quantised to a byte |
| XImage.Image.Clear | xlib-slim/ximage.h:1130-1137 | the image becomes 0 by 0 by 1 with no data; the format stays |
| Terrain.CleanValues | avalanche_sim_xlib_slim/avalance_sim/avalance_sim/headers/terrain/terrain.h:72-74 | a value at or below the no-data marker becomes 0; every other value is kept |
| Terrain.RunningMinIsMin | avalanche_sim_xlib_slim/avalance_sim/avalance_sim/headers/terrain/terrain.h:67-92 | the `minHeight` scan gives a lower bound of the start value and every value, and is one of them |
| Terrain.LoadedHeightsPlain | avalanche_sim_xlib_slim/avalance_sim/avalance_sim/headers/terrain/terrain.h:69-92 | without meshes the height map is the cleaned grid, not shifted |
| Terrain.LoadedHeightsShifted | avalanche_sim_xlib_slim/avalance_sim/avalance_sim/headers/terrain/terrain.h:93-104 | with meshes no height is negative, and the difference between any two cells is that of the cleaned grid |
| Terrain.LoadedHeightsTouchZero | avalanche_sim_xlib_slim/avalance_sim/avalance_sim/headers/terrain/terrain.h:88-104 | with meshes some cell reads exactly 0 when some cleaned value is at most the scan's start value |
| Terrain.GridVertexAt | avalanche_sim_xlib_slim/avalance_sim/avalance_sim/headers/terrain/terrain.h:75-83 | the vertex of row i, column j is at (j * cellSize, height, i * cellSize) |
| Terrain.QuadCorners | avalanche_sim_xlib_slim/avalance_sim/avalance_sim/headers/terrain/terrain.h:105-114 | quad (i, j) has corners `j + xSize*i`, one to its right, and the two below them, all below `xSize * ySize` |
| Terrain.GridQuadAt | avalanche_sim_xlib_slim/avalance_sim/avalance_sim/headers/terrain/terrain.h:105-114 | the quad at flat position `i * qcols + j` is the quad of row i, column j |
| Terrain.Terrain.constructor | avalanche_sim_xlib_slim/avalance_sim/avalance_sim/headers/terrain/terrain.h:13-21 | a new terrain has empty grids, each 0 by 1 |
| Terrain.Terrain.Load | avalanche_sim_xlib_slim/avalance_sim/avalance_sim/headers/terrain/terrain.h:42-116 | after the header and the values are read, the height map is the cleaned grid, shifted when meshes are made; with meshes, every vertex and every quad is laid out as above; without them, the meshes are untouched |
| Terrain.Terrain.ComputeNormal | avalanche_sim_xlib_slim/avalance_sim/avalance_sim/headers/terrain/terrain.h:119-133 | the indices are clamped onto the map; the normal has unit length for a non-zero cell size; its y is positive exactly when the cell size is; its x (and z) is positive exactly when the previous column (row) is higher than the cell and negative exactly when it is lower, and is 0 at the first column (row) |
| Terrain.Terrain.StartCell | avalanche_sim_xlib_slim/avalance_sim/avalance_sim/headers/terrain/terrain.h:154-159 | the start cell of `trace` is clamped onto the map |
| Terrain.StepDirection | avalanche_sim_xlib_slim/avalance_sim/avalance_sim/headers/terrain/terrain.h:148-153 | a ray with a horizontal part gets a step direction whose components lie in [-1, 1], whose absolute x and z add up to at least 1, and whose signs point from start to end; a vertical ray gets the zero vector |
| Terrain.AdvanceStep | avalanche_sim_xlib_slim/avalance_sim/avalance_sim/headers/terrain/terrain.h:204-213 | each step keeps the error in range, moves x (and z) by 0 or one cell towards the end, and brings the walk `\|dir.x\|` closer to the edge, so the walk ends |
| Terrain.Next | avalanche_sim_xlib_slim/avalance_sim/avalance_sim/headers/terrain/terrain.h:204-214 | a turn that goes on keeps both axis errors in the range their axes keep them in |
| Terrain.Terrain.WalkTurn | avalanche_sim_xlib_slim/avalance_sim/avalance_sim/headers/terrain/terrain.h:181-214 | at a map cell that is not the end cell, the walk hits there, at the cell corner moved by the errors and one cell size above the cell, with its normal, exactly when the ray is more than one cell size above it; otherwise it is the walk from the next probe, which is at least one cell closer to the edges the axes move to, so the walk ends |
| Terrain.Terrain.WalkFirstStop | avalanche_sim_xlib_slim/avalance_sim/avalance_sim/headers/terrain/terrain.h:180-216 | the walk is decided at its first turn that does not go on: a miss that leaves `hit` and `normal` as they were when that cell is off the map or the end cell, and otherwise a hit at that cell |
| Terrain.Terrain.Walk | avalanche_sim_xlib_slim/avalance_sim/avalance_sim/headers/terrain/terrain.h:180-216 | the loop returns what the walk from its first probe gives |
| Terrain.Terrain.CourseOf | avalanche_sim_xlib_slim/avalance_sim/avalance_sim/headers/terrain/terrain.h:148-157 | a ray with a horizontal part gets a course whose step advances each axis by at most one cell and both by at least one, each in the direction its sign gives |
| Terrain.Terrain.TraceOf | avalanche_sim_xlib_slim/avalance_sim/avalance_sim/headers/terrain/terrain.h:142-217 | when the start cell (clamped) and the end cell coincide, a hit exactly when `start.y` is at most the cell's height plus the cell size, at (start.x, height, start.z) with that cell's normal; a vertical ray between different cells misses; a miss leaves `hit` and `normal` as they were |
| Terrain.Terrain.Trace | avalanche_sim_xlib_slim/avalance_sim/avalance_sim/headers/terrain/terrain.h:142-217 | the method reports what `TraceOf` gives |
| Settings.SimulationSettings.constructor | simulation-app/libs/simulations/avalanche-simulation/simulationsettings.h:34-49 | every field takes its listed default except `clumpingFactor`, which is left as it was |
| Settings.SimulationSettings.ParseSettings | simulation-app/libs/simulations/avalanche-simulation/simulationsettings.h:53-122 | a file that does not open changes nothing; otherwise the fields are those left by applying every line in order |
| Settings.SkippedLineUnchanged | simulation-app/libs/simulations/avalanche-simulation/simulationsettings.h:68-69 | a blank line, or one whose first token starts with '#', changes nothing |
| Settings.UnknownKeyUnchanged | simulation-app/libs/simulations/avalanche-simulation/simulationsettings.h:72-120 | a line whose key is not recognised changes nothing |
| Settings.AssignSetsOnlyItsField | simulation-app/libs/simulations/avalanche-simulation/simulationsettings.h:72-119 | a recognised key sets its own field to the value after it and leaves every other field as it was |
| Settings.ApplyLineGet | simulation-app/libs/simulations/avalanche-simulation/simulationsettings.h:61-120 | a line changes a field exactly when the line sets that field |
| Settings.LastOccurrenceWins | simulation-app/libs/simulations/avalanche-simulation/simulationsettings.h:61-120 | every field ends with the value from the last line that sets it, or keeps its value when none does |
| Settings.KeyOfNamed | simulation-app/libs/simulations/avalanche-simulation/simulationsettings.h:72-119 | a recognised key is the name of the field it selects, and never `disableView` |
| Settings.NameRecognised | simulation-app/libs/simulations/avalanche-simulation/simulationsettings.h:72-119 | the name of every field except `disableView` is recognised as that field |
| Settings.DisableViewNeverParsed | simulation-app/libs/simulations/avalanche-simulation/simulationsettings.h:72-120 | no settings file changes `disableView` |
| Settings.NoSettingOfDisableView | simulation-app/libs/simulations/avalanche-simulation/simulationsettings.h:72-120 | no line sets `disableView` |
| Settings.SimulationSettings.Store | simulation-app/libs/simulations/avalanche-simulation/simulationsettings.h:15-31 | the fields take exactly the parsed values |
| Settings.SimulationSettings.StoreFilesAndForces | simulation-app/libs/simulations/avalanche-simulation/simulationsettings.h:15-23 | each file name and the first three forces take the parsed value |
| Settings.SimulationSettings.StoreRest | simulation-app/libs/simulations/avalanche-simulation/simulationsettings.h:24-31 | each remaining field takes the parsed value |
| Particles.Falling | avalanche_sim_xlib_slim/avalance_sim/avalance_sim/headers/core/massmovementsimulation.h:195 | gravity changes only the vertical speed, and lowers it over a positive time step |
| Particles.DampingScales | avalanche_sim_xlib_slim/avalance_sim/avalance_sim/headers/core/massmovementsimulation.h:201-203 | free-flight damping scales the velocity by `1 - damping` |
| Particles.DampingNeverSpeedsUp | avalanche_sim_xlib_slim/avalance_sim/avalance_sim/headers/core/massmovementsimulation.h:202 | for a damping in [0, 2], damping never speeds the particle up |
| Particles.DampingKeepsDirection | avalanche_sim_xlib_slim/avalance_sim/avalance_sim/headers/core/massmovementsimulation.h:202 | for a damping in [0, 1), damping keeps the sign of every component |
| Particles.ReflectionMirrors | avalanche_sim_xlib_slim/avalance_sim/avalance_sim/headers/core/massmovementsimulation.h:207 | against a unit normal, the reflection reverses the normal component and keeps the length |
| Particles.ReflectedKeepsLength | avalanche_sim_xlib_slim/avalance_sim/avalance_sim/headers/core/massmovementsimulation.h:205-207 | the reflected direction, scaled back by the speed, is as long as the velocity |
| Particles.Lifted | avalanche_sim_xlib_slim/avalance_sim/avalance_sim/headers/core/massmovementsimulation.h:209-211 | a particle below the hit moves halfway up to it; any other particle stays in place |
| Particles.StickyStops | avalanche_sim_xlib_slim/avalance_sim/avalance_sim/headers/core/massmovementsimulation.h:213-215 | a hit with `speed * dTime < stickyness` leaves exactly zero velocity |
| Particles.BounceKeepsSpeed | avalanche_sim_xlib_slim/avalance_sim/avalance_sim/headers/core/massmovementsimulation.h:205-215 | without turbulence, a bounce that does not stick keeps the fraction `1 - bounceFriction` of the speed |
| Particles.Integrated | avalanche_sim_xlib_slim/avalance_sim/avalance_sim/headers/core/massmovementsimulation.h:217 | the position advances by `velocity * dTime`, and the velocity stays |
| Particles.MovedFreely | avalanche_sim_xlib_slim/avalance_sim/avalance_sim/headers/core/massmovementsimulation.h:195-217 | without a collision the particle falls, is damped and moves by its new velocity |
| Particles.MovedSticks | avalanche_sim_xlib_slim/avalance_sim/avalance_sim/headers/core/massmovementsimulation.h:195-217 | a particle that sticks on collision ends the step at rest, at its lifted position |
| ParticleGrid.GridCoord | avalanche_sim_xlib_slim/avalance_sim/avalance_sim/headers/core/massmovementsimulation.h:92-93 | a map coordinate is spread from the map extent `n * cellSize` onto the grid's cells; non-negative coordinates stay non-negative |
| ParticleGrid.CellsOf | avalanche_sim_xlib_slim/avalance_sim/avalance_sim/headers/core/massmovementsimulation.h:95-117 | the four cell indices are clamped into the grid, and each neighbour index is within one of the own index |
| ParticleGrid.CellIndices | avalanche_sim_xlib_slim/avalance_sim/avalance_sim/headers/core/massmovementsimulation.h:119-122 | the four buckets pushed to, in the order (iy, ix), (iy, x1), (y1, x1), (y1, ix), all inside the grid |
| ParticleGrid.NeighbourSide | avalanche_sim_xlib_slim/avalance_sim/avalance_sim/headers/core/massmovementsimulation.h:97-117 | the neighbour is the next cell when the fraction is at least 0.5 and the previous one otherwise; it is the own cell only at the first cell or at the last cell of the grid |
| ParticleGrid.RegistrationOf | avalanche_sim_xlib_slim/avalance_sim/avalance_sim/headers/core/massmovementsimulation.h:92-122 | a particle registers to four buckets, all inside the grid |
| ParticleGrid.RegisteredBuckets | avalanche_sim_xlib_slim/avalance_sim/avalance_sim/headers/core/massmovementsimulation.h:119-122 | after registration every bucket is what it was, followed by the particle once for each time the bucket is listed |
| ParticleGrid.RegisteredTotal | avalanche_sim_xlib_slim/avalance_sim/avalance_sim/headers/core/massmovementsimulation.h:119-122 | registration adds exactly one entry per listed bucket |
| ParticleGrid.RegisteredInOwnCell | avalanche_sim_xlib_slim/avalance_sim/avalance_sim/headers/core/massmovementsimulation.h:113-119 | the particle's own cell gains the particle |
| ParticleGrid.RegisteredBelow | avalanche_sim_xlib_slim/avalance_sim/avalance_sim/headers/core/massmovementsimulation.h:119-122 | registration keeps every bucket entry a valid particle index |
| ParticleGrid.RegisteredUnlisted | avalanche_sim_xlib_slim/avalance_sim/avalance_sim/headers/core/massmovementsimulation.h:119-122 | registration lists no other particle anew |
| ParticleGrid.TotalOfEmpty | avalanche_sim_xlib_slim/avalance_sim/avalance_sim/headers/core/massmovementsimulation.h:72-79 | a grid of empty buckets holds no entry |
| ParticleGrid.EmptyGrid | avalanche_sim_xlib_slim/avalance_sim/avalance_sim/headers/core/massmovementsimulation.h:72-84 | every bucket of a cleared grid is empty |
| ParticleGrid.DensityCell | avalanche_sim_xlib_slim/avalance_sim/avalance_sim/headers/core/massmovementsimulation.h:128-134 | the bucket read for density lies inside the grid |
| ParticleGrid.DensityCellIsOwnCell | avalanche_sim_xlib_slim/avalance_sim/avalance_sim/headers/core/massmovementsimulation.h:126-134 | the bucket `computeDensity` reads is the first bucket a particle at the same point registers to |
| ParticleGrid.Density | avalanche_sim_xlib_slim/avalance_sim/avalance_sim/headers/core/massmovementsimulation.h:126-137 | the density is non-negative, and times the area of a grid cell, `(cellSize / gridCols)^2`, gives the number of entries in the bucket |
| ParticleGrid.PulledCombination | avalanche_sim_xlib_slim/avalance_sim/avalance_sim/headers/core/massmovementsimulation.h:167-168 | an entry's new velocity is `(1 - clump) v + (clump - (1 - clump) visc / count) avg` |
| ParticleGrid.PulledNeutral | avalanche_sim_xlib_slim/avalance_sim/avalance_sim/headers/core/massmovementsimulation.h:167-168 | without viscosity and clumping, an entry keeps its velocity |
| ParticleGrid.PulledFullClump | avalanche_sim_xlib_slim/avalance_sim/avalance_sim/headers/core/massmovementsimulation.h:167-168 | with a clumping factor of 1, an entry takes the average velocity |
| ParticleGrid.PulledBlend | avalanche_sim_xlib_slim/avalance_sim/avalance_sim/headers/core/massmovementsimulation.h:167-168 | without viscosity, the clumping factor is the fraction of the way an entry moves to the average |
| ParticleGrid.PullAllKeeps | avalanche_sim_xlib_slim/avalance_sim/avalance_sim/headers/core/massmovementsimulation.h:166-169 | pulling a bucket changes only velocities, and only those of its entries |
| ParticleGrid.PullAllNeutral | avalanche_sim_xlib_slim/avalance_sim/avalance_sim/headers/core/massmovementsimulation.h:166-169 | without viscosity and clumping, pulling a bucket leaves every particle as it was |
| ParticleGrid.GridUpdatedKeeps | avalanche_sim_xlib_slim/avalance_sim/avalance_sim/headers/core/massmovementsimulation.h:139-172 | the grid pass changes only velocities, and only those of particles some bucket lists |
| ParticleGrid.GridUpdatedNeutral | avalanche_sim_xlib_slim/avalance_sim/avalance_sim/headers/core/massmovementsimulation.h:139-172 | without viscosity and clumping, the grid pass changes nothing |
| ForceMap.Blank | avalanche_sim_xlib_slim/avalance_sim/avalance_sim/headers/core/massmovementsimulation.h:36-37 | the new force map is all zero, one value per start-zone pixel |
| ForceMap.PixelOf | avalanche_sim_xlib_slim/avalance_sim/avalance_sim/headers/core/massmovementsimulation.h:220-225 | a deposit goes only to a pixel before the last column and before the last row |
| ForceMap.DepositAmount | avalanche_sim_xlib_slim/avalance_sim/avalance_sim/headers/core/massmovementsimulation.h:226-228 | the deposit is never negative for a non-negative density, and is zero for a purely vertical motion |
| ForceMap.Deposited | avalanche_sim_xlib_slim/avalance_sim/avalance_sim/headers/core/massmovementsimulation.h:229 | a deposit keeps the size of the force map |
| ForceMap.DepositedAt | avalanche_sim_xlib_slim/avalance_sim/avalance_sim/headers/core/massmovementsimulation.h:225-230 | a deposit adds the amount to its one pixel and leaves every other pixel unchanged; without a pixel nothing changes |
| ForceMap.DepositNeverDecreases | avalanche_sim_xlib_slim/avalance_sim/avalance_sim/headers/core/massmovementsimulation.h:225-230 | for a non-negative amount, no force-map pixel decreases |
| ForceMap.EdgeNeverDeposited | avalanche_sim_xlib_slim/avalance_sim/avalance_sim/headers/core/massmovementsimulation.h:225 | pixels of the last column and of the last row never change |
| ForceMap.DistinctPixels | avalanche_sim_xlib_slim/avalance_sim/avalance_sim/headers/core/massmovementsimulation.h:229 | distinct pixels have distinct positions in the force map, so a deposit reaches one pixel |
| StartZone.PixelCount | avalanche_sim_xlib_slim/avalance_sim/avalance_sim/headers/core/massmovementsimulation.h:43 | a start-zone pixel spawns `int(lengthSqr(rgb))` particles, at most 3 |
| StartZone.Spawns | avalanche_sim_xlib_slim/avalance_sim/avalance_sim/headers/core/massmovementsimulation.h:49-68 | the pixels of the spawned particles, in spawning order, all inside the start zone |
| StartZone.ColumnSpawns | avalanche_sim_xlib_slim/avalance_sim/avalance_sim/headers/core/massmovementsimulation.h:50-53 | the particles of column i come from pixels of that column, in row order |
| StartZone.Jitter | avalanche_sim_xlib_slim/avalance_sim/avalance_sim/headers/core/massmovementsimulation.h:54-59 | the four jitter rounds equal the jitter drawn from the stream, and every axis lies within [-1, 1] |
| StartZone.JitterAxisBounds | avalanche_sim_xlib_slim/avalance_sim/avalance_sim/headers/core/massmovementsimulation.h:55-59 | the sum of n rounds of `(frand() - 0.5) / 2` lies in [-n/4, n/4] |
| StartZone.SpawnCol | avalanche_sim_xlib_slim/avalance_sim/avalance_sim/headers/core/massmovementsimulation.h:61 | the map column of a start-zone column lies in the map |
| StartZone.SpawnRow | avalanche_sim_xlib_slim/avalance_sim/avalance_sim/headers/core/massmovementsimulation.h:62 | the flipped map row lies in [1, rows] |
| StartZone.SpawnRowPastMap | avalanche_sim_xlib_slim/avalance_sim/avalance_sim/headers/core/massmovementsimulation.h:62-63 | the top start-zone row maps to row `rows`, whose height read lies past the end of the height map |
| StartZone.LookupRow | avalanche_sim_xlib_slim/avalance_sim/avalance_sim/headers/core/massmovementsimulation.h:63 | the corrected height row lies in the map and differs from the flipped row only for the row past the map |
| StartZone.SpawnPlacement | avalanche_sim_xlib_slim/avalance_sim/avalance_sim/headers/core/massmovementsimulation.h:61-64 | a spawned particle is at rest, within one cell of its map cell along x and z, and `initialHeight` above the height read for it |
| StartZone.SpawnPixel | avalanche_sim_xlib_slim/avalance_sim/avalance_sim/headers/core/massmovementsimulation.h:52-66 | one pixel's particles are appended in order, each from its own twelve draws |
| StartZone.CountSpawns | avalanche_sim_xlib_slim/avalance_sim/avalance_sim/headers/core/massmovementsimulation.h:41-46 | the counting loops give the number of particles the spawning walk produces |
| StartZone.CountColumn | avalanche_sim_xlib_slim/avalance_sim/avalance_sim/headers/core/massmovementsimulation.h:42-45 | the inner counting loop adds the number of particles column i spawns |
| StartZone.SpawnAll | avalanche_sim_xlib_slim/avalance_sim/avalance_sim/headers/core/massmovementsimulation.h:49-68 | the spawning loops produce exactly the walk's particles, in order, using twelve draws each |
| StartZone.SpawnColumn | avalanche_sim_xlib_slim/avalance_sim/avalance_sim/headers/core/massmovementsimulation.h:50-67 | the middle loop appends column i's particles in order, twelve draws each |
| StartZone.SpawnFromPixel | avalanche_sim_xlib_slim/avalance_sim/avalance_sim/headers/core/massmovementsimulation.h:51-66 | the inner loop body appends pixel (i, j)'s particles, twelve draws each |
| StartZone.Populate | avalanche_sim_xlib_slim/avalance_sim/avalance_sim/headers/core/massmovementsimulation.h:38-68 | the counted array is filled by the spawning walk, exactly |
| MassMovement.GridShape | avalanche_sim_xlib_slim/avalance_sim/avalance_sim/headers/core/massmovementsimulation.h:83 | the grid is `int(gridSize * rows / 512)` by `int(gridSize * cols / 512)` |
| MassMovement.GridShapeNonEmpty | avalanche_sim_xlib_slim/avalance_sim/avalance_sim/headers/core/massmovementsimulation.h:83 | the grid has rows exactly when `gridSize * rows >= 512`, and columns likewise |
| MassMovement.CountOnMap | avalanche_sim_xlib_slim/avalance_sim/avalance_sim/headers/core/massmovementsimulation.h:183-186 | at most the number of particles lies over the map |
| MassMovement.Simulation.Init | avalanche_sim_xlib_slim/avalance_sim/avalance_sim/headers/core/massmovementsimulation.h:23-27 | the settings and the terrain are taken; no particles, an empty 0-by-1 grid and an empty force map |
| MassMovement.Simulation.ClearGrid | avalanche_sim_xlib_slim/avalance_sim/avalance_sim/headers/core/massmovementsimulation.h:72-79 | every bucket is emptied; the grid's shape and the particles stay |
| MassMovement.Simulation.ResetGrid | avalanche_sim_xlib_slim/avalance_sim/avalance_sim/headers/core/massmovementsimulation.h:81-84 | the grid takes the shape `GridShape` gives, with every bucket empty |
| MassMovement.Simulation.InitParticles | avalanche_sim_xlib_slim/avalance_sim/avalance_sim/headers/core/massmovementsimulation.h:30-70 | the force map is the all-zero raster of the start zone's size; the particles are exactly those the start zone spawns, in order; the grid is reset |
| MassMovement.Simulation.RegisterParticleToGrid | avalanche_sim_xlib_slim/avalance_sim/avalance_sim/headers/core/massmovementsimulation.h:86-123 | particle i is pushed onto the four buckets of its registration, in order, and nothing else changes |
| MassMovement.Simulation.UpdateParticle | avalanche_sim_xlib_slim/avalance_sim/avalance_sim/headers/core/massmovementsimulation.h:182-231 | the new particles, grid, force map and draw count are `Updated` of the old ones: nothing changes for a particle off the map; otherwise the trace outcome is `TraceOf` the step after gravity and the density is read from the grid as it was |
| MassMovement.Simulation.UpdateOnMap | avalanche_sim_xlib_slim/avalance_sim/avalance_sim/headers/core/massmovementsimulation.h:188-229 | for a particle over the map, the state after the move, the registration and the deposit is `Updated` of the old one |
| MassMovement.Simulation.Settle | avalanche_sim_xlib_slim/avalance_sim/avalance_sim/headers/core/massmovementsimulation.h:219-229 | the moved particle is registered at its new position and its deposit, with the density read before the move, is added to the force map |
| MassMovement.Simulation.Advance | avalanche_sim_xlib_slim/avalance_sim/avalance_sim/headers/core/massmovementsimulation.h:188-217 | the trace outcome is `TraceOf` the step after gravity; the particle becomes the moved particle of `Motion`, with the density from the grid, and no other particle changes |
| MassMovement.Simulation.Deposit | avalanche_sim_xlib_slim/avalance_sim/avalance_sim/headers/core/massmovementsimulation.h:229 | the force map gains the amount at the pixel, if any |
| MassMovement.Simulation.UpdateAllParticles | avalanche_sim_xlib_slim/avalance_sim/avalance_sim/headers/core/massmovementsimulation.h:174-180 | the grid, force map and draw count are those of the sweep of `updateParticle` over every particle from a cleared grid, and the particles are the grid pass over the swept particles; the grid then holds four entries per particle that was over the map, particles off the map are unchanged, and no force-map pixel decreased |
| MassMovement.Simulation.UpdateSwept | avalanche_sim_xlib_slim/avalance_sim/avalance_sim/headers/core/massmovementsimulation.h:176-178 | one turn of the loop is `Updated` on the state and keeps the loop invariant: particles before i are updated and registered, later ones are untouched, no force-map pixel decreased |
| MassMovement.PendingRegistered | avalanche_sim_xlib_slim/avalance_sim/avalance_sim/headers/core/massmovementsimulation.h:176-178 | registering particle i, over the map, keeps every later particle unlisted |
| MassMovement.Simulation.UpdateGrid | avalanche_sim_xlib_slim/avalance_sim/avalance_sim/headers/core/massmovementsimulation.h:139-172 | the particles are those the grid pass gives, bucket by bucket in row-major order |
| MassMovement.PullBucket | avalanche_sim_xlib_slim/avalance_sim/avalance_sim/headers/core/massmovementsimulation.h:142-169 | one bucket: skipped when empty; otherwise the average velocity is taken once and every entry is pulled towards it |
| MassMovement.PullRow | avalanche_sim_xlib_slim/avalance_sim/avalance_sim/headers/core/massmovementsimulation.h:141-170 | a row of buckets extends the grid pass by its buckets, in order |
| CsvLoad.SplitLine | avalanche_sim_xlib_slim/avalance_sim/avalance_sim/headers/csvload.h:31-47 | a line gives one field more than it has commas; no field holds a comma or a double quote; joined by commas the fields give the line without its double quotes and its unquoted whitespace |
| CsvLoad.SplitUnique | avalanche_sim_xlib_slim/avalance_sim/avalance_sim/headers/csvload.h:31-47 | those three properties determine the row: a line has exactly one split |
| CsvLoad.JoinedInjective | avalanche_sim_xlib_slim/avalance_sim/avalance_sim/headers/csvload.h:34-47 | two rows of clean fields that join to the same text are equal |
| CsvLoad.NonEmpty | avalanche_sim_xlib_slim/avalance_sim/avalance_sim/headers/csvload.h:27-29 | only non-empty lines give rows |
| CsvLoad.Load | avalanche_sim_xlib_slim/avalance_sim/avalance_sim/headers/csvload.h:17-52 | a file that does not open gives the empty table; otherwise every non-empty line, in order, gives the row `SplitLine` describes |
| Genetic.RangeWidth | avalanche_sim_xlib_slim/avalance_sim/avalance_sim/headers/genetic_prog.h:9-10 | every locus range is non-empty |
| Genetic.DecodeRange | avalanche_sim_xlib_slim/avalance_sim/avalance_sim/headers/genetic_prog.h:121-128 | decoding maps [0, 1] onto the locus's range and nothing outside [0, 1] into it |
| Genetic.DecodeEncode | avalanche_sim_xlib_slim/avalance_sim/avalance_sim/headers/genetic_prog.h:121-128 | decoding and encoding are inverse to each other |
| Genetic.Apply | avalanche_sim_xlib_slim/avalance_sim/avalance_sim/headers/genetic_prog.h:121-128 | copying a gene into the settings truncates the decoded `gridSize` to an `int` |
| Genetic.ApplySets | avalanche_sim_xlib_slim/avalance_sim/avalance_sim/headers/genetic_prog.h:121-127 | each of the seven real parameters is set to its decoded locus |
| Genetic.ApplyKeepsOthers | avalanche_sim_xlib_slim/avalance_sim/avalance_sim/headers/genetic_prog.h:121-128 | every setting the gene does not optimise keeps its value |
| Genetic.ApplyInRange | avalanche_sim_xlib_slim/avalance_sim/avalance_sim/headers/genetic_prog.h:121-128 | a gene in [0, 1] gives every parameter a value in its range, and a grid size in [64, 512] |
| Genetic.Tridist | avalanche_sim_xlib_slim/avalance_sim/avalance_sim/headers/genetic_prog.h:77 | the locus mutation `(frand() - frand()) * scale * frand()` is at most the scale in size |
| Genetic.Triangular | avalanche_sim_xlib_slim/avalance_sim/avalance_sim/headers/genetic_prog.h:77 | the random factor `(frand() - frand()) * frand()` lies in [-1, 1] |
| Genetic.LocusInherits | avalanche_sim_xlib_slim/avalance_sim/avalance_sim/headers/genetic_prog.h:68-81 | each locus gives one child one parent's value and the other child the other's, one of them moved by at most the scale; without the mutation draw, exactly the parents' values |
| Genetic.LociInherit | avalanche_sim_xlib_slim/avalance_sim/avalance_sim/headers/genetic_prog.h:68-81 | after the locus loop every locus is inherited in that way; with a mutation chance of at most 0, exactly |
| Genetic.InheritLocus | avalanche_sim_xlib_slim/avalance_sim/avalance_sim/headers/genetic_prog.h:69-80 | the loop body gives the two loci and the next draw as `Locus` describes |
| Genetic.InheritLoci | avalanche_sim_xlib_slim/avalance_sim/avalance_sim/headers/genetic_prog.h:68-81 | the locus loop gives all eight loci as the locus phase describes |
| Genetic.PivotMutation | avalanche_sim_xlib_slim/avalance_sim/avalance_sim/headers/genetic_prog.h:84-93 | the random mutation changes at most one locus of at most one child, by at most the scale, and only when the draw is below the chance |
| Genetic.Spread | avalanche_sim_xlib_slim/avalance_sim/avalance_sim/headers/genetic_prog.h:89-91 | the mutation step `scale * (frand() - frand())` is at most the scale in size |
| Genetic.Mutate | avalanche_sim_xlib_slim/avalance_sim/avalance_sim/headers/genetic_prog.h:84-93 | the mutation block of `combine` is the pivot mutation |
| Genetic.Interpolation | avalanche_sim_xlib_slim/avalance_sim/avalance_sim/headers/genetic_prog.h:95-105 | the random interpolation changes at most one locus of at most one child, to a value between the parents' values there |
| Genetic.Lerp | avalanche_sim_xlib_slim/avalance_sim/avalance_sim/headers/genetic_prog.h:101-103 | the blend of two parents' values lies between them |
| Genetic.Interpolate | avalanche_sim_xlib_slim/avalance_sim/avalance_sim/headers/genetic_prog.h:95-105 | the interpolation block of `combine` is the interpolation described |
| Genetic.Unit | avalanche_sim_xlib_slim/avalance_sim/avalance_sim/headers/genetic_prog.h:107-111 | the clamping loop puts every locus into [0, 1] and keeps those already there |
| Genetic.ClampLoci | avalanche_sim_xlib_slim/avalance_sim/avalance_sim/headers/genetic_prog.h:108-111 | the clamping loop clamps every locus into [0, 1] |
| Genetic.Combined | avalanche_sim_xlib_slim/avalance_sim/avalance_sim/headers/genetic_prog.h:51-112 | both children have all loci in [0, 1] and are unevaluated |
| Genetic.CombinedWithoutMutation | avalanche_sim_xlib_slim/avalance_sim/avalance_sim/headers/genetic_prog.h:68-75 | with a mutation chance of at most 0, the children of parents in [0, 1] split every locus between them, one parent's value each |
| Genetic.Combine | avalanche_sim_xlib_slim/avalance_sim/avalance_sim/headers/genetic_prog.h:51-112 | the four phases of `combine`, run in order, give `Combined` |
| Genetic.PickIndex | avalanche_sim_xlib_slim/avalance_sim/avalance_sim/headers/genetic_prog.h:226-228 | the cubed draw picks an index inside a non-empty population |
| Genetic.Cubed | avalanche_sim_xlib_slim/avalance_sim/avalance_sim/headers/genetic_prog.h:226-227 | `af * af * af` of a draw lies in [0, 1], and is at most 1/8 for a draw of at most 1/2 |
| Genetic.PickFavoursFit | avalanche_sim_xlib_slim/avalance_sim/avalance_sim/headers/genetic_prog.h:222-228 | every draw of at most 1/2 picks from the first eighth of the sorted population |
| Genetic.NarrowPopulationSticks | avalanche_sim_xlib_slim/avalance_sim/avalance_sim/headers/genetic_prog.h:229-234 | in a population of fewer than two genes every draw picks the same index, so the search for a second parent never ends |
| Genetic.SelectionNeedsTwo | avalanche_sim_xlib_slim/avalance_sim/avalance_sim/headers/genetic_prog.h:229-234 | the selection can end only for a population of at least two genes |
| Genetic.PickParents | avalanche_sim_xlib_slim/avalance_sim/avalance_sim/headers/genetic_prog.h:225-234 | the parents are two different indices inside the population: the first from the first draw, the second from the first later draw that gives another index |
| Genetic.SortPopulation | avalanche_sim_xlib_slim/avalance_sim/avalance_sim/headers/genetic_prog.h:197-205 | the exchange sort orders the population by non-decreasing fitness and is a permutation of it |
| Genetic.SettleFront | avalanche_sim_xlib_slim/avalance_sim/avalance_sim/headers/genetic_prog.h:198-204 | one pass of the inner loop puts a fittest remaining gene at position j, by swaps |
| Genetic.Breed | avalanche_sim_xlib_slim/avalance_sim/avalance_sim/headers/genetic_prog.h:225-243 | the parents are two distinct indices: the first from the first draw, the second from the first later draw that gives another index; the children are `Combined` of those two parents with the draws that follow, each in [0, 1] and evaluated by the fitness function |
| Genetic.PrunedKeeps | avalanche_sim_xlib_slim/avalance_sim/avalance_sim/headers/genetic_prog.h:241-266 | sorting the grown population and popping two genes keeps the size; the two popped are no fitter than any kept; nothing is lost but them; the fittest gene survives |
| Genetic.Generation | avalanche_sim_xlib_slim/avalance_sim/avalance_sim/headers/genetic_prog.h:225-266 | a generation breeds two evaluated children, `Combined` of the two distinct parents the draws pick as in `Breed`; the new population has the old size and is sorted; it and the two removed genes are the old population plus the children; no removed gene is fitter than a kept one, and the fittest is never lost |
| Genetic.RunGA | avalanche_sim_xlib_slim/avalance_sim/avalance_sim/headers/genetic_prog.h:186-300 | the population keeps its size, ends sorted, keeps its loci in [0, 1], and its front gene is at least as fit as every gene it started with |
| Genetic.CrossIndex | avalanche_sim_xlib_slim/avalance_sim/avalance_sim/headers/genetic_prog.h:176-178 | the squared draw picks an index inside the first population |
| Genetic.ExchangedKeeps | avalanche_sim_xlib_slim/avalance_sim/avalance_sim/headers/genetic_prog.h:179-181 | the genes at the index trade places, every other gene stays, and exchanging twice undoes it |
| Genetic.Exchanged | avalanche_sim_xlib_slim/avalance_sim/avalance_sim/headers/genetic_prog.h:179-181 | an exchange keeps the sizes of the two populations |
| Genetic.ExchangedKeepsGenes | avalanche_sim_xlib_slim/avalance_sim/avalance_sim/headers/genetic_prog.h:179-181 | the two populations together keep the same genes |
| Genetic.Crossover | avalanche_sim_xlib_slim/avalance_sim/avalance_sim/headers/genetic_prog.h:174-182 | `crossover` exchanges the genes at the index drawn against the first population |
| Genetic.InitialLocusBelowRange | avalanche_sim_xlib_slim/avalance_sim/avalance_sim/headers/genetic_prog.h:433-440 | as written, a zero draw gives the `stickyness`, `turbulanceForce` and `gridSize` loci values below 0, which decode below their ranges; at every locus whose range does not start at 0 the locus differs from the draw for every draw below 1 |
| Genetic.InitialLocus | avalanche_sim_xlib_slim/avalance_sim/avalance_sim/headers/genetic_prog.h:433-440 | corrected, a locus is the draw itself, lies in [0, 1] and decodes to the draw spread over the locus's range |
| Genetic.InitialGene | avalanche_sim_xlib_slim/avalance_sim/avalance_sim/headers/genetic_prog.h:432-440 | an initial gene, built with the corrected locus of `InitialLocus`, is unevaluated, with every locus in [0, 1] |
| Genetic.InitialPopulation | avalanche_sim_xlib_slim/avalance_sim/avalance_sim/headers/genetic_prog.h:430-443 | the initial population, built with the corrected locus of `InitialLocus`, has `size` unevaluated genes, each from its own eight draws, with every locus in [0, 1] |
| MarchingSquares.AddOffset | avalanche_sim_xlib_slim/avalance_sim/avalance_sim/headers/marchingsquares.h:13-17 | every point moves by the offset |
| MarchingSquares.Shift | avalanche_sim_xlib_slim/avalance_sim/avalance_sim/headers/marchingsquares.h:13-17 | moving keeps the number of points |
| MarchingSquares.ShiftInverse | avalanche_sim_xlib_slim/avalance_sim/avalance_sim/headers/marchingsquares.h:13-17 | moving back by the opposite offset gives back the points |
| MarchingSquares.ShiftTwice | avalanche_sim_xlib_slim/avalance_sim/avalance_sim/headers/marchingsquares.h:13-17 | two moves are one move by the sum of the offsets |
| MarchingSquares.MidIsMidpoint | avalanche_sim_xlib_slim/avalance_sim/avalance_sim/headers/marchingsquares.h:64-126 | each point of the table is the midpoint of one edge of the unit cell |
| MarchingSquares.CaseTable | avalanche_sim_xlib_slim/avalance_sim/avalance_sim/headers/marchingsquares.h:61-127 | cases 0 and 15 emit nothing, cases 5 and 10 emit two segments, every other case one; every segment has two points; the end points of a case are exactly the midpoints of the edges whose corners lie on opposite sides, each once |
| MarchingSquares.CaseSizes | avalanche_sim_xlib_slim/avalance_sim/avalance_sim/headers/marchingsquares.h:61-127 | cases 0 and 15 are empty, cases 5 and 10 have two segments, every segment has two points |
| MarchingSquares.CaseCrossings | avalanche_sim_xlib_slim/avalance_sim/avalance_sim/headers/marchingsquares.h:61-127 | the end points of a case are the midpoints of the crossed edges, each once |
| MarchingSquares.CasePointsInCell | avalanche_sim_xlib_slim/avalance_sim/avalance_sim/headers/marchingsquares.h:61-127 | every point of the table lies in the unit cell |
| MarchingSquares.CaseIndex | avalanche_sim_xlib_slim/avalance_sim/avalance_sim/headers/marchingsquares.h:138-144 | the case index lies in [0, 15], with bit c set exactly when corner c lies above the threshold |
| MarchingSquares.CaseIndexInjective | avalanche_sim_xlib_slim/avalance_sim/avalance_sim/headers/marchingsquares.h:138-144 | different above/below patterns give different cases |
| MarchingSquares.CellCase | avalanche_sim_xlib_slim/avalance_sim/avalance_sim/headers/marchingsquares.h:131-144 | a cell's case is one of the 16 |
| MarchingSquares.EmitCell | avalanche_sim_xlib_slim/avalance_sim/avalance_sim/headers/marchingsquares.h:145-148 | a cell appends its case's segments, moved to the cell |
| MarchingSquares.CellWithin | avalanche_sim_xlib_slim/avalance_sim/avalance_sim/headers/marchingsquares.h:145-148 | a cell emits two-point segments inside its own extent |
| MarchingSquares.EmitColumn | avalanche_sim_xlib_slim/avalance_sim/avalance_sim/headers/marchingsquares.h:130-149 | the inner loop appends the segments of column i's cells, in order |
| MarchingSquares.ColumnWithin | avalanche_sim_xlib_slim/avalance_sim/avalance_sim/headers/marchingsquares.h:130-149 | the segments of one column lie inside the extent so far |
| MarchingSquares.Contours | avalanche_sim_xlib_slim/avalance_sim/avalance_sim/headers/marchingsquares.h:129-150 | the cell loops emit, column by column, every cell's case segments moved to the cell |
| MarchingSquares.ColumnsWithin | avalanche_sim_xlib_slim/avalance_sim/avalance_sim/headers/marchingsquares.h:129-150 | every emitted polygon is a two-point segment inside the raster's extent |
| MarchingSquares.FirstJoinFrom | avalanche_sim_xlib_slim/avalance_sim/avalance_sim/headers/marchingsquares.h:25-43 | the scan finds the first pair in scan order whose end and start points meet, or reports that no pair does |
| MarchingSquares.FirstJoin | avalanche_sim_xlib_slim/avalance_sim/avalance_sim/headers/marchingsquares.h:25-43 | there is no join exactly when no pair of polygons joins, and a join found is one that can be merged |
| MarchingSquares.FindJoin | avalanche_sim_xlib_slim/avalance_sim/avalance_sim/headers/marchingsquares.h:25-43 | the scan loops find exactly that first pair |
| MarchingSquares.Merge | avalanche_sim_xlib_slim/avalance_sim/avalance_sim/headers/marchingsquares.h:31-37 | polygon i is extended by polygon j's points after its first, and polygon j is emptied |
| MarchingSquares.Merged | avalanche_sim_xlib_slim/avalance_sim/avalance_sim/headers/marchingsquares.h:31-37 | a merge keeps the number of polygons |
| MarchingSquares.MergedCounts | avalanche_sim_xlib_slim/avalance_sim/avalance_sim/headers/marchingsquares.h:31-37 | a merge keeps the number of polygons, loses exactly one point and empties exactly one polygon |
| MarchingSquares.WithoutEmptyKeeps | avalanche_sim_xlib_slim/avalance_sim/avalance_sim/headers/marchingsquares.h:48-53 | dropping the empty polygons keeps every point and every non-empty polygon, and nothing else |
| MarchingSquares.WithoutEmpty | avalanche_sim_xlib_slim/avalance_sim/avalance_sim/headers/marchingsquares.h:48-53 | no polygon that is kept is empty |
| MarchingSquares.WithoutEmptyNoJoins | avalanche_sim_xlib_slim/avalance_sim/avalance_sim/headers/marchingsquares.h:48-53 | dropping empty polygons creates no join |
| MarchingSquares.DropEmpty | avalanche_sim_xlib_slim/avalance_sim/avalance_sim/headers/marchingsquares.h:48-54 | the last loop keeps the non-empty polygons, in order |
| MarchingSquares.ReducedProperties | avalanche_sim_xlib_slim/avalance_sim/avalance_sim/headers/marchingsquares.h:21-55 | the result has no empty polygon and no two polygons that join, and it lost one point per polygon that went away |
| MarchingSquares.ReducePolygons | avalanche_sim_xlib_slim/avalance_sim/avalance_sim/headers/marchingsquares.h:21-55 | `reducePolygons` terminates, since each merge empties one polygon; its result is the reduction, with no empty polygon and no two polygons that join |

## Left out

- The file reading itself is not modelled; each file is given as a parameter. This covers:
  - BMP import and export, except the row-size arithmetic;
  - the stream extraction of the elevation grid header and values;
  - the settings and CSV file streams;
  - the `exit(1)` when the elevation file does not open.
- Image filters, lerped reads, the RGBAFLOAT32 and GRAYSCALE_FLOAT32 channel codecs, and `exportAs_BMP` with its reformatting are not modelled.
  - The float force map is a row-major `seq<real>` in `ForceMap`, written as the `*(float*)forceMap(x, y) += ...` of `updateParticle` does.
- `Terrain::load` also fills each vertex's texture coordinates (terrain.h:80-82), with the height shifted by `minHeight` and divided by `maxHeight` (terrain.h:67, 85-87, 97-98), and `maxHeight` exists only for that division. Only the renderers read texture coordinates, so the model leaves both out.
- `exportNormalMap` (file output) and `computeColor` (an empty body without a return) are not modelled.
- `updateGrid` computes `dist` and never uses it, so the model leaves it out.
- Some guards cannot be taken, and the model leaves them out:
  - the bounds checks of `trace` after its indices were clamped;
  - `count <= 0.01` in `updateGrid`, which follows a non-empty bucket.
- Terrain.Terrain.TraceOf: for a vertical ray between two different cells, the source divides by a zero horizontal length. The model returns a miss there, and `Trace` does the same.
- The marching-squares image resize by `accuracy` is not modelled. The raster's float pixels are given as a function `value`. The source marks these functions as unused.
- Polygon2d is a value. `addOffset` returns the moved polygon rather than updating the vector in place.
- Floating point: `float`/`double` rounding and the fast inverse square root are not modelled. Square roots come from a supplied function, and `lengthSqr() < 0.00001` is compared over `real`.
- The random number generator is not modelled: `rand()` values are a supplied stream.
- The order of draws within one expression is a modelling choice. C++ leaves unspecified which operand of `frand()-frand()` (genetic_prog.h:77, 89, 91) and which argument of `vec3(frand() - 0.5, 0, frand() - 0.5)` (massmovementsimulation.h:212) draws first; the model draws left to right.
- Concurrency is not modelled:
  - `batchGA`, `GAThread` and the thread flags;
  - `GASettings` parsing;
  - the `g_mutationScale *= 0.95` damping between generations. Chance and scale are parameters.
- `evalFitness` runs whole simulations on images, so it is a parameter `eval` of the genetic model.
  - Those simulations also draw from the global `rand()` stream: `initParticles` draws the spawn jitter and `mainLoop` draws the turbulence. So in the source, each evaluation consumes draws, and a child's fitness depends on the generator's state as well as on the gene.
  - The model treats `eval` as a pure function of the gene. Its stream is the source's stream with those evaluation draws removed. So the `drawnOut` of `Genetic.Breed` and `Genetic.Generation`, and the draw index `Genetic.RunGA` carries from one generation to the next, count only the selection, crossover and mutation draws.
- Terrain.Terrain.Load: requires `1 <= xSize` and `1 <= ySize` when meshes are generated. The model therefore leaves out an empty elevation grid loaded with meshes. In the source, the quad array's shape `(ySize - 1, xSize - 1)` then passes through `unsigned` parameters and wraps. For 0-by-1, 1-by-0 and 0-by-0 grids, the load finishes with a wrapped quad shape and no quads. Any other empty grid asks for a huge allocation.
- Genetic.RunGA: requires `Distinguishes`, i.e. that the draw stream always eventually gives a second parent index.
  - Without it, the search loop of the source never ends: see NarrowPopulationSticks.
  - It is needed only when at least one generation runs.
- Genes hold their loci as a `seq<real>` of length 8, not a fixed C array.
- The population is a `seq` value, not a `vector` updated in place.
- MassMovement.Simulation.InitParticles: the `xarray<Particle>(numParticles)` is modelled by appending each spawned particle. Populate proves that the count and the spawned particles agree.
- The grid buckets (`ParticleBucket`, in particlebucket.h) are modelled as sequences of particle indices. particlebucket.h is not part of this model.
- MassMovement.Simulation.UpdateAllParticles: requires a grid with cells and a terrain with cells (`GridReady`, `TerrainReady`). The source would index an empty grid.
- MassMovement.Simulation.ResetGrid: requires `0 <= gridSize`. A negative grid size would give a negative `xarray` shape, which the `unsigned` parameters turn into a huge allocation.
- Particles.BounceKeepsSpeed: requires no turbulence. With turbulence the random push changes the speed by an amount the model does not bound.
- The `MassMovementSimulation` of the simulation-app copy and the engine in `avalanchesim.h` are near-duplicates and are not modelled separately.

## Findings

| source | as written | input that shows it | evidently intended | confidence | as-written member | corrected member |
|---|---|---|---|---|---|---|
| avalanche_sim_xlib_slim/avalance_sim/avalance_sim/arrayx.h:190 | `operator==` loops to `xa._xsize * xb._xsize` | two 1-by-2 arrays {0, 1} and {0, 2}: the loop runs once and they compare equal | loop over all `xa._xsize * xa._ysize` elements | not executed | ArrayX.EqualAsWrittenMissesElements | ArrayX.Equal |
| avalanche_sim_xlib_slim/avalance_sim/avalance_sim/arrayx.h:190 | `operator==` loops to `xa._xsize * xb._xsize` | two equal 1-D arrays of n >= 2 elements: the loop runs n * n times and reads past both arrays' elements | loop over all `xa._xsize * xa._ysize` elements | not executed | ArrayX.EqualAsWrittenReadsPastEnd | ArrayX.Equal |
| avalanche_sim_xlib_slim/avalance_sim/avalance_sim/arrayx.h:145 | `memmove` copies `_xsize - index` elements from `index + 1` | any `remove(index)` on a 1-D array: the range read ends at position `_xsize`, one past the last element | copy `_xsize - index - 1` elements | not executed | ArrayX.RemoveMoveReadsPastEnd | ArrayX.XArray.Remove |
| xlib-slim/ximage.h:377-380 | the 8-bit grayscale setter stores a 4-byte `float` into a 1-byte pixel | a latent defect: no case of the format switch at ximage.h:443-481 installs this setter, so no image reaches it; were it installed, the last voxel of a w-by-h-by-d grayscale buffer, at its last byte, would be written three bytes past the buffer | store the clamped byte, as the other byte formats do | not executed | XImage.Gray8SetterWritesPastPixel | XImage.SetChannel |
| avalanche_sim_xlib_slim/avalance_sim/avalance_sim/headers/core/massmovementsimulation.h:62-63 | `y = rows - rows * j / height`, then `heightMap(y, x)` | j = 0: y = rows, so the read is at `rows * cols + x`, past the height map | a row inside the map; the model reads row `rows - 1` there | not executed | StartZone.SpawnRowPastMap | StartZone.LookupRow |
| avalanche_sim_xlib_slim/avalance_sim/avalance_sim/headers/genetic_prog.h:433-440 | `(frand()*max - min)/(max - min)` | a zero draw for `stickyness` (min 0.1): the locus is -0.1/0.65, below 0; `turbulanceForce` and `gridSize` likewise; and at these three loci the locus differs from the draw for every draw below 1 | `(frand()*(max - min))/(max - min)`, a locus in [0, 1] | not executed | Genetic.InitialLocusBelowRange | Genetic.InitialLocus |
| avalanche_sim_xlib_slim/avalance_sim/avalance_sim/headers/genetic_prog.h:227-234 | the second parent is drawn `while (b == a)` | a population of one gene: every draw gives index 0, so the loop never ends | a population of at least two genes, or a loop that gives up | not executed | Genetic.NarrowPopulationSticks | Genetic.PickParents |

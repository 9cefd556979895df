# ISANA core, modelled in Dafny

ISANA is an OpenGL visualiser: a terrain, rigged meshes, a font writer, a
console and a post-processing chain. This project models its sequential core.
GL, windowing and asset plumbing are left out. The modules are:

- `IsanaMath` (math.dfy): `square` and `clip`, plus the unsigned wrap-around
  that several parts of the program rely on.
- `CameraModel` (camera.dfy): the zoom clamps and angle wraps of the camera.
- `Skeleton` (skeleton.dfy): the parts that both armature revisions share.
  These are the ancestor walk, the skinning-matrix composition order, the
  `" > "`-joined bone path and the vertex-major weights buffer.
- `CoreArmature` (armature.dfy) and `LegacyArmature` (armature_legacy.dfy): the
  two armature classes. Bones live in an append-only arena and a bone handle is
  its index. Matrices are an uninterpreted term algebra (`Matrix`), so
  composition order and "nothing else changes" are proved without numerics.
- `HeightField` (height_field.dfy): the height map that both terrain revisions
  share. It covers `idx`, the coarse pass, the fill pass with its clamped 4x4
  stencil, and Catmull-Rom cubic and bicubic interpolation over `real`.
- `TerrainGrid` (terrain_grid.dfy): the grid vertices, the two-triangles-per-cell
  index list, the plane height of a triangle and the lookup of `get_height`.
- `EnvironmentTerrain` (terrain.dfy) and `LegacyTerrain` (terrain_legacy.dfy):
  the two `Terrain` classes. The current one has smoothed vertex normals; the
  older one has flat per-face normals and a different lookup.
- `ObjMesh` (mesh.dfy): OBJ face de-indexing in `load_mesh_from_file`, and
  `center`.
- `Fonts` (font.dfy): the font writer. It covers unpacking of monochrome
  bitmaps, the distance-field pass, the atlas layout (ten glyphs per row) with
  the copy into the atlas, and the glyph quads of text lines.
- `PostProcessing` (post_processor.dfy): the ping-pong state of the
  post-processor.
- `Objects` (object.dfy): the uniform properties of an object and the attribute
  selection of `load`.
- `ConsoleModel` (console.dfy): the console log stream and the line cursors.

`Wrappers`, `Geometry` (vectors over `real`) and `Matrix` are shared helper
modules.

Where the source updates state in place, the model is a class with `modifies`
clauses. Loops become methods with invariants, proved against specification
functions, and lemmas state the properties of those functions. Floats are
modelled as exact reals. Unsigned `int` arithmetic is written out with
`Wrap32` where the model relies on its wrap (the object-loader index shift,
the font drop, the signed character code, the height-map stencil); the
products listed under "## Left out" are unbounded.

## Model

| member | source | states |
|---|---|---|
| IsanaMath.Square | src/accessoires/math.h:24-30 | a square is never negative |
| IsanaMath.Clip | src/accessoires/math.h:32-38 | for a non-empty range the result lies in it; a value already in range is returned unchanged; an empty range (lower > upper) yields lower, because the max is applied last; the result is always n, lower or upper |
| IsanaMath.ClipIdempotent | src/accessoires/math.h:32-38 | clipping twice gives the same as clipping once, whether or not the range is empty |
| IsanaMath.ClipMonotone | src/accessoires/math.h:32-38 | clip is monotone in its argument |
| IsanaMath.Wrap32 | src/mesh.cpp:126 | the value an unsigned int holds after an arithmetic result: below 2^32, unchanged when in range, raised by 2^32 when negative |
| CameraModel.ZoomOutStep | src/core/camera.h:147-153 | one zoom_out step never exceeds 150; it adds 1 when that stays within 150 and gives 150 otherwise |
| CameraModel.ZoomInStep | src/core/camera.h:158-164 | one zoom_in step never goes below 50; it subtracts 1 when that stays at or above 50 and gives 50 otherwise |
| CameraModel.ZoomsStayInRange | src/core/camera.h:147-164 | any sequence of zoom_in and zoom_out calls keeps a distance that starts in [50, 150] inside [50, 150] |
| CameraModel.CcwStep | src/core/camera.h:137-142 | angle_ccw keeps theta in [0, 2π] when it starts there |
| CameraModel.CwStep | src/core/camera.h:120-125 | angle_cw adds 2π whenever theta - 0.1 is below 2π (not below 0), so from any theta of at least 0.1 the result is never below 2π |
| CameraModel.CwLeavesRange | src/core/camera.h:120-125 | starting from 0, two angle_cw steps give 2π - 0.1 and then 4π - 0.2, which is outside [0, 2π] |
| CameraModel.CwStepFromRange | src/core/camera.h:120-125 | every angle_cw step from inside [0, 2π] lands in [2π - 0.1, 4π) |
| CameraModel.Camera.constructor | src/core/camera.cpp:107-110 | the camera starts at distance 50, with theta 0 |
| CameraModel.Camera.ZoomOut | src/core/camera.h:147-153 | distance becomes the zoom_out step of the old distance; theta is unchanged; the range [50, 150] is kept |
| CameraModel.Camera.ZoomIn | src/core/camera.h:158-164 | distance becomes the zoom_in step of the old distance; theta is unchanged; the range [50, 150] is kept |
| CameraModel.Camera.AngleCcw | src/core/camera.h:137-142 | theta becomes the angle_ccw step of the old theta; distance is unchanged; [0, 2π] is kept |
| CameraModel.Camera.AngleCw | src/core/camera.h:120-125 | theta becomes the angle_cw step of the old theta; distance is unchanged |
| CameraModel.Camera.ResetAngle | src/core/camera.h:130-132 | theta becomes 0 and distance is unchanged |
| Skeleton.Ancestors | src/core/armature.cpp:108-112 | the `while(b)` walk from bone i starts at i, visits no index above i and ends at a root |
| Skeleton.AncestorsFollowParents | src/core/armature.cpp:108-112 | each step of the walk goes from a bone to its parent |
| Skeleton.AncestorsDecrease | src/core/armature.cpp:108-112 | when every parent was added before its child, the walk visits strictly decreasing indices, so it ends after at most i + 1 bones |
| Skeleton.BonePath | src/core/armature.cpp:167-172 | a bone's path ends with its own name, and its length is the length of all names on the chain plus one " > " per ancestor |
| Skeleton.BonePathJoinsRootToLeaf | src/core/armature.cpp:167-172 | a bone's path is the names from the root down to the bone, joined by " > " |
| Skeleton.TwoBoneComposition | src/core/armature.cpp:102-116 | for a root and its child, the child's skinning matrix is offset · T(child) · F(child) · T(root) · F(root), multiplied in that order |
| Skeleton.TransposeWeights | src/core/armature.cpp:123-136 | the weights buffer has nr_vertices · nr_bones entries, with nr_vertices taken from bone 0; each entry is the transposed weight |
| Skeleton.TransposeAt | src/core/armature.cpp:123-136 | entry i · nr_bones + j of the buffer is in range and holds bone j's weight for vertex i |
| CoreArmature.Armature.constructor | src/core/armature.cpp:53-55 | an armature starts with no bones and empty caches |
| CoreArmature.Armature.AddBone | src/core/armature.cpp:66-73 | appends exactly one bone, with its frame transposed, an identity offset (a default-constructed glm::mat4) and no weights; appends one identity matrix to each cache; the bone is told its index, which is the old bone count, and that index is returned; earlier entries are unchanged |
| CoreArmature.Armature.SetOffsetMatrix | src/core/armature.cpp:43-48 | stores transpose(inverse(T0) · m) as the bone's offset; nothing else changes |
| CoreArmature.Armature.SetWeights | include/armature.h:81-83 | replaces one bone's weight vector; nothing else changes |
| CoreArmature.Armature.SetBoneTransformation | src/core/object.cpp:110-111 | overrides the pose of one bone; bones and glsl matrices are unchanged |
| CoreArmature.Armature.FindBoneByName | src/core/armature.cpp:75-85 | returns the first bone carrying the name, or a failure exactly when no bone does |
| CoreArmature.Armature.BuildFrameMatrices | src/core/armature.cpp:87-100 | every bone's frame becomes inverse(offset) for a root and inverse(offset) · offset of the parent otherwise; offsets, poses and glsl matrices are unchanged |
| CoreArmature.Armature.BuildGlslMatrices | src/core/armature.cpp:102-116 | each glsl matrix is the bone's offset, right-multiplied by the pose and then the frame of each bone from itself up to the root; only the glsl matrices change |
| CoreArmature.Armature.GetWeightsVector | src/core/armature.cpp:123-136 | the buffer has nr_vertices · nr_bones entries, and entry i · nr_bones + j is bone j's weight for vertex i |
| CoreArmature.Armature.GetBonePath | src/core/armature.cpp:167-172 | the path of a bone is its root-to-bone names joined by " > " |
| LegacyArmature.Armature.constructor | src/armature.cpp:41-43 | an armature starts with no bones |
| LegacyArmature.Armature.AddBone | src/armature.cpp:54-58 | appends one bone that keeps frame, name and parent as given (no transpose); the bone count grows by one and the old count is the returned handle |
| LegacyArmature.Armature.SetOffsetMatrix | include/armature.h:72-74 | stores the offset matrix unchanged; nothing else changes |
| LegacyArmature.Armature.SetWeights | include/armature.h:81-83 | replaces the weight vector; get_weights_size then reports its length |
| LegacyArmature.Armature.GetWeightsVector | src/armature.cpp:65-78 | the buffer has get_weights_size(0) · nr_bones entries, and entry i · nr_bones + j is bone j's weight for vertex i |
| LegacyArmature.Armature.GetBonePath | src/armature.cpp:96-101 | the path of a bone is its root-to-bone names joined by " > " |
| HeightField.IdxFormula | src/environment/terrain.cpp:363-365 | idx(i, j) = i + (width + 1) · j |
| HeightField.GridSizeFormula | src/environment/terrain.cpp:214 | the height buffer holds (width + 1)(height + 1) entries |
| HeightField.IdxInBounds | src/environment/terrain.cpp:363-365 | idx(i, j) is within the buffer for every i ≤ width and j ≤ height |
| HeightField.IdxInjective | src/environment/terrain.cpp:363-365 | distinct grid points have distinct idx entries |
| HeightField.WriteKeepsOthers | src/environment/terrain.cpp:217 | the coarse pass's `j * (width + 1) + i` is idx(i, j), and no other grid point shares that entry |
| HeightField.RoundDown | src/environment/terrain.cpp:228-229 | floor(c / si) · si is a multiple of si, at most c and more than c - si |
| HeightField.StencilAxis | src/environment/terrain.cpp:228-264 | one axis of the stencil has four entries, clamped exactly as the unsigned source computes them |
| HeightField.StencilIsCoarse | src/environment/terrain.cpp:228-264 | with interval 10, every stencil entry is a multiple of 10 inside the axis, so the fill pass reads only coarse cells; the entries are ordered and the last two coincide |
| HeightField.StencilLiteralTenOverruns | src/environment/terrain.cpp:238 | with an interval other than 10 the literal `x + 10` breaks this: interval 5, axis length 100 and coordinate 95 give entry 105 |
| HeightField.Cubic | src/environment/terrain.cpp:302-304 | cubic_interpolate passes through p[1] at 0 and p[2] at 1, and reproduces constants |
| HeightField.CubicReproducesLines | src/environment/terrain.cpp:302-304 | equally spaced samples of a straight line interpolate to that line |
| HeightField.Columns | src/environment/terrain.cpp:318-322 | arr[a] is the cubic interpolation of column a at y |
| HeightField.Bicubic | src/environment/terrain.cpp:317-324 | bicubic_interpolate returns the four inner stencil values at the four corners of the unit cell |
| HeightField.BicubicConstant | src/environment/terrain.cpp:317-324 | a flat stencil interpolates to its constant everywhere |
| HeightField.StencilValues | src/environment/terrain.cpp:266-285 | p[a][b] is the height at stencil entry (ixx[a], iyy[b]) |
| HeightField.NoiseStencil | src/environment/terrain.cpp:266-285 | the stencil is 4 x 4, and p[a][b] is the noise sample at (xs[a], ys[b]) |
| HeightField.CoarseKeepsNoise | src/environment/terrain.cpp:215-219 | a point of the coarse lattice keeps its noise sample in the finished map |
| HeightField.FlatNoiseFlatMap | src/environment/terrain.cpp:212-293 | constant noise gives a flat height map |
| HeightField.GenerateHeightMap | src/environment/terrain.cpp:212-293 | the map has (width + 1)(height + 1) entries, and every grid point holds its coarse sample or its bicubic fill |
| HeightField.CoarsePass | src/environment/terrain.cpp:215-219 | afterwards every coarse point holds its noise sample |
| HeightField.CoarseRow | src/environment/terrain.cpp:216-218 | one row of the coarse pass writes the coarse points of row j and leaves every other row unchanged |
| HeightField.FillPass | src/environment/terrain.cpp:221-292 | afterwards every grid point holds its height: coarse points keep their sample and the others hold the bicubic fill of their stencil |
| HeightField.FillRow | src/environment/terrain.cpp:222-291 | one row of the fill pass completes row j and keeps the coarse points |
| HeightField.FillOne | src/environment/terrain.cpp:224-290 | a non-coarse point receives its fill value and every other entry is unchanged |
| HeightField.ReadStencil | src/environment/terrain.cpp:266-285 | the 16 reads hit coarse cells only, which hold the noise samples |
| TerrainGrid.RowIndices | src/environment/terrain.cpp:126-139 | a row's first n cells emit 6n indices |
| TerrainGrid.GridIndices | src/environment/terrain.cpp:118-141 | the first rows of cells emit six indices per cell |
| TerrainGrid.GridIndicesLength | src/environment/terrain.cpp:118-141 | the grid loops emit 6 · width · height indices, that is 2 · width · height triangles |
| TerrainGrid.GridIndicesAt | src/environment/terrain.cpp:118-141 | cell (i, j) owns indices 6(j · width + i) to 6(j · width + i) + 5, because cells are emitted row by row |
| TerrainGrid.GridIndicesBounded | src/environment/terrain.cpp:127-130 | every emitted index is below (width + 1)(height + 1), so it names a grid vertex |
| TerrainGrid.CellIndicesFormula | src/environment/terrain.cpp:127-138 | the six indices of a cell are (i1, i2, i4, i2, i3, i4), computed as in the source |
| TerrainGrid.BuildGrid | src/environment/terrain.cpp:118-141 | the grid loops push one vertex (i, j, height) per grid point in row-major order, and the index list of all cells |
| TerrainGrid.BuildRow | src/environment/terrain.cpp:119-140 | one row of the loops appends the row's vertices and, except on the last row, its cells' indices |
| TerrainGrid.GridStep | src/environment/terrain.cpp:121-139 | one grid point pushes its vertex, and six indices unless i = width or j = height |
| TerrainGrid.PlaneHeightScaleInvariant | src/environment/terrain.cpp:53-67 | normalising the normal does not change the plane height |
| TerrainGrid.PlaneHeightAtCorners | src/environment/terrain.cpp:53-56 | on a non-vertical triangle, the plane height at each corner's (x, y) is that corner's z |
| TerrainGrid.TriangleIndexIsCell | src/environment/terrain.cpp:346-350 | the lookup index is 2 · (cell number) plus 1 above the diagonal |
| TerrainGrid.LowerTrianglePlane | src/environment/terrain.cpp:132-134 | the lower-left triangle of a cell has normal (z1 - z2, z1 - z4, 1), and its plane is the matching linear interpolation |
| TerrainGrid.UpperTrianglePlane | src/environment/terrain.cpp:136-138 | the upper-right triangle has normal (z4 - z3, z2 - z3, 1), and its plane is the matching linear interpolation |
| TerrainGrid.CellTriangle | src/environment/terrain.cpp:118-141 | triangle 2c + u of the list, with c the cell number, has corners 3u to 3u + 2 of that cell |
| TerrainGrid.LookupIndex | src/environment/terrain.cpp:346-350 | inside the grid the lookup names one of the two triangles of the cell holding (x, y): the first below the diagonal, the second above it |
| TerrainGrid.LookupCorners | src/environment/terrain.cpp:346-350 | the triangle that the lookup reads has the corners the grid loops gave that cell half |
| TerrainGrid.PointAt | src/environment/terrain.cpp:123 | vertex idx(i, j) of the grid is (i, j, height at idx(i, j)) |
| TerrainGrid.CellTrianglePlane | src/environment/terrain.cpp:53-56 | the plane of the cell triangle holding (x, y) faces up, and it gives the piecewise-planar surface height there |
| TerrainGrid.LookupMatchesGeneration | src/environment/terrain.cpp:334-350 | inside the grid, the lookup reads a triangle that exists; its normal points up, and its plane gives the surface height at (x, y) |
| TerrainGrid.GridTriangleFacesUp | src/environment/terrain.cpp:127-138 | every triangle of the list has an unnormalised face normal with z = 1 |
| TerrainGrid.UnsignedCast | src/environment/terrain.cpp:336-337 | `(unsigned int)x` truncates a non-negative float toward zero |
| EnvironmentTerrain.TriangleHeightAtCorners | src/environment/terrain.cpp:53-56 | on a non-vertical TerrainTriangle, get_height at a corner is that corner's height |
| EnvironmentTerrain.NormalSumOfUnusedVertex | src/environment/terrain.cpp:143-158 | a vertex that is no triangle's corner keeps a zero normal sum |
| EnvironmentTerrain.VertexNormals | src/environment/terrain.cpp:143-162 | there is one smoothed normal per vertex |
| EnvironmentTerrain.AccumulateNormals | src/environment/terrain.cpp:143-162 | the normals loops give each vertex the normalised sum of the normalised face normals of the triangles that have it as a corner |
| EnvironmentTerrain.NoPartialSums | src/environment/terrain.cpp:143 | before any triangle, every sum is the zero vector |
| EnvironmentTerrain.PartialSums | src/environment/terrain.cpp:144-158 | there is one normal sum per vertex after any number of triangles |
| EnvironmentTerrain.SumFaceNormals | src/environment/terrain.cpp:144-158 | the accumulation loop gives every vertex its sum over all triangles |
| EnvironmentTerrain.AccumulateTriangle | src/environment/terrain.cpp:145-157 | one pass adds triangle t's normalised face normal to its corners, giving the sums after t + 1 triangles |
| EnvironmentTerrain.PartialSumsNext | src/environment/terrain.cpp:155-157 | adding triangle t's face normal to its three corners takes the sums over t triangles to the sums over t + 1 |
| EnvironmentTerrain.AddToCorners | src/environment/terrain.cpp:155-157 | the face normal is added to the three corner entries in order, and no other entry changes |
| EnvironmentTerrain.NormalizeAll | src/environment/terrain.cpp:160-162 | every entry is normalised in place, and the count is kept |
| EnvironmentTerrain.BuildTriangles | src/environment/terrain.cpp:164-174 | one TerrainTriangle per three indices, in order, with its corners and their normals |
| EnvironmentTerrain.Flatten | src/environment/terrain.cpp:176-202 | indices[k] = k, and three positions, normals and colours per triangle, in order |
| EnvironmentTerrain.FlattenedCorners | src/environment/terrain.cpp:181-197 | reading the flattened buffers through the index buffer gives every triangle's corners again |
| EnvironmentTerrain.GridTriangleListFacesUp | src/environment/terrain.cpp:164-174 | the triangles built from the grid are the grid's triangles in order, and all of them face up |
| EnvironmentTerrain.GridMesh | src/environment/terrain.cpp:118-174 | the grid vertices and one triangle per three grid indices |
| EnvironmentTerrain.DefaultGridFits | src/environment/terrain.cpp:77-79 | the 100 x 100 grid can be generated, and its indices fit an unsigned int |
| EnvironmentTerrain.Terrain.constructor | src/environment/terrain.cpp:76-88 | width 100, height 100, interval 10, the height map sampled from the noise, the triangle list exactly the generated grid triangles (normals through `unit`), and consistent |
| EnvironmentTerrain.Terrain.GenerateTerrain | src/environment/terrain.cpp:110-203 | the height map, the grid, the grid's triangles appended to the list, and the flattened buffers of the whole list |
| EnvironmentTerrain.Terrain.GetHeight | src/environment/terrain.cpp:334-351 | logs exactly when the column exceeds width or y exceeds height, reads the triangle of the lookup anyway, and inside the grid returns the surface height |
| EnvironmentTerrain.Terrain.InGridLookup | src/environment/terrain.cpp:346-350 | inside the grid no index wraps, and the triangle read is the one over (x, y) |
| LegacyTerrain.FlatTriangleHeightAtCorners | src/terrain.cpp:48-51 | on a non-vertical triangle, get_height at a corner is that corner's height |
| LegacyTerrain.BuildFlatTriangles | src/terrain.cpp:153-160 | one flat TerrainTriangle per three indices, in order |
| LegacyTerrain.FlattenFlat | src/terrain.cpp:162-188 | indices[k] = k, three positions per triangle, and the normalised face normal (`unit` of it) and the colour repeated three times |
| LegacyTerrain.FlatShading | src/terrain.cpp:176-182 | the three vertices of a flattened triangle share its normalised face normal and its colour |
| LegacyTerrain.FlatGridTriangleListFacesUp | src/terrain.cpp:153-160 | the triangles built from the grid are the grid's triangles in order, and all of them face up |
| LegacyTerrain.FlatGridMesh | src/terrain.cpp:128-160 | the grid vertices and one flat triangle per three grid indices |
| LegacyTerrain.LegacyLookupShift | src/terrain.cpp:364-368 | inside the grid the older lookup is the generation order's index plus 2 · floor(y), so the two agree exactly on row 0 |
| LegacyTerrain.LegacyLookupOverrun | src/terrain.cpp:364-368 | on the 50 x 50 grid the query (49.5, 49.5) reads triangle 5096 of 5000 |
| LegacyTerrain.LegacyGridFits | src/terrain.cpp:72-74 | the 50 x 50 grid can be generated, and its indices fit an unsigned int |
| LegacyTerrain.Terrain.constructor | src/terrain.cpp:71-95 | width 50, height 50, interval 10, the height map sampled from the noise, the triangle list exactly the generated flat grid triangles, and consistent |
| LegacyTerrain.Terrain.GenerateTerrain | src/terrain.cpp:121-189 | the height map, the grid, the flat grid triangles appended to the list, and the flattened buffers of the whole list with each triangle's normalised face normal |
| LegacyTerrain.Terrain.GetHeight | src/terrain.cpp:352-369 | logs exactly when the column exceeds width or y exceeds height, reads triangle 2 · idx(i, j) (+ 1), and on the first row of cells returns the surface height |
| LegacyTerrain.Terrain.FirstRowLookup | src/terrain.cpp:364-368 | on the first row of cells the older lookup reads the triangle over (x, y) |
| ObjMesh.ZeroBased | src/mesh.cpp:126 | the unsigned `- 1` gives v - 1 for v ≥ 1 and wraps 0 to 2^32 - 1 |
| ObjMesh.ReadCounts | src/mesh.cpp:102-148 | each face line of either form gives three position and three normal indices; a textured face also gives three texture indices; each `v` line gives one position |
| ObjMesh.ReadExtends | src/mesh.cpp:102-148 | reading more lines only appends to each temporary list |
| ObjMesh.ReadLines | src/mesh.cpp:102-148 | the reading loop offers every line to each pattern in turn and gives the temporary lists |
| ObjMesh.Iota | src/mesh.cpp:152 | the index buffer 0 .. n - 1 has n entries |
| ObjMesh.DeindexedCorners | src/mesh.cpp:150-167 | drawing the de-indexed vertices through 0, 1, 2, … yields the face corners in order |
| ObjMesh.Mesh.constructor | src/mesh.cpp:23-24 | the empty mesh |
| ObjMesh.Mesh.FromFile | src/mesh.cpp:26-29 | the loaded mesh, with its positions centered |
| ObjMesh.Mesh.LoadMeshFromFile | src/mesh.cpp:83-170 | with faces, the buffers gain indices 0 .. n - 1, one position and one normal per corner, and texture coordinates only when there are texture indices; without faces nothing changes |
| ObjMesh.Mesh.DeindexTextured | src/mesh.cpp:150-158 | positions[k], texture_coordinates[k] and normals[k] come from the k-th position, texture and normal index, and indices[k] = k |
| ObjMesh.Mesh.DeindexUntextured | src/mesh.cpp:160-167 | the same for positions and normals, and no texture coordinates are produced |
| ObjMesh.Mesh.Center | src/mesh.cpp:172-191 | every position has the mean subtracted; the other buffers are unchanged |
| ObjMesh.SumPositions | src/mesh.cpp:177-181 | the summing loop gives the component-wise sum of the positions |
| ObjMesh.Centered | src/mesh.cpp:183-190 | centering keeps the number of positions |
| ObjMesh.CenteredSumsToZero | src/mesh.cpp:172-191 | after center the positions sum to zero, so their mean is the origin |
| ObjMesh.CenterIdempotent | src/mesh.cpp:172-191 | centering an already centered mesh changes nothing |
| Fonts.CellInjective | src/core/font_writer.cpp:313 | distinct pixels of a row-major raster have distinct positions |
| Fonts.CellCover | src/core/font_writer.cpp:313 | every position of a raster is the cell of exactly the pixel (k / cols, k % cols) |
| Fonts.MsbBitsSpellByte | src/core/font_writer.cpp:366-367 | reading the bits most significant first, as `1 << (7 - bit_index)` does, spells the byte's value |
| Fonts.UnpackedStep | src/core/font_writer.cpp:369 | writing pixel (y, x) moves the unpacked region on by one pixel |
| Fonts.BitsInByte | src/core/font_writer.cpp:366 | the inner loop handles at most eight bits, exactly the pixels of the byte that lie within the row, and none once the byte starts past the width |
| Fonts.UnpackMonoBitmap | src/core/font_writer.cpp:354-375 | the result has (rows + 2p)(width + 2p) cells; cell (y + p, x + p) is bit 7 - x % 8 of byte y · pitch + x / 8; padding cells are false |
| Fonts.UnpackRow | src/core/font_writer.cpp:358-371 | the byte loop of one row unpacks every pixel of that row |
| Fonts.FieldLevel | src/core/font_writer.cpp:396-400 | the level is at most 255; inside pixels are at least 127 and outside pixels at most 127; at full distance they are 255 and 0 |
| Fonts.CalculateDistanceField | src/core/font_writer.cpp:377-403 | because the std::min result is discarded, every inside pixel becomes 255 and every outside pixel 0 |
| Fonts.Scan | src/core/font_writer.cpp:238-279 | the pen's counter stays below 10, and a counter of 0 means a fresh row |
| Fonts.ScanCounter | src/core/font_writer.cpp:270-271 | the counter the loop resets is the glyph count modulo 10 |
| Fonts.GlyphSettles | src/core/font_writer.cpp:267-278 | after more glyphs, an earlier glyph is either on the open row, left of the pen and no taller than the row, or above it and within the widest closed row |
| Fonts.GlyphInAtlas | src/core/font_writer.cpp:297-330 | every glyph's padded box lies inside the atlas |
| Fonts.GlyphsApart | src/core/font_writer.cpp:322-329 | a later glyph starts right of an earlier one on its row, or below it |
| Fonts.AtlasCell | src/core/font_writer.cpp:313 | each pixel of a glyph's box has an atlas position within img_width · img_height |
| Fonts.AtlasCellsDistinct | src/core/font_writer.cpp:311-315 | two different pixels of the layout never share an atlas position, so no write overwrites another glyph |
| Fonts.AtlasWidthOverrun | src/core/font_writer.cpp:273-287 | with the width as written, a final partial row wider than every full row is written past the buffer's end |
| Fonts.Div64 | src/core/font_writer.cpp:259-261 | `/ 64` on 26.6 metrics gives whole pixels, rounded toward zero for both signs |
| Fonts.BoxWidths | src/core/font_writer.cpp:254 | one padded box width per glyph: the bitmap width plus twice the padding |
| Fonts.BoxHeights | src/core/font_writer.cpp:255 | one padded box height per glyph: the bitmap rows plus twice the padding |
| Fonts.PlacedGlyphInUnitSquare | src/core/font_writer.cpp:317-320 | a placed glyph's texture rectangle lies inside the unit square, with tx1 ≤ tx2 and ty2 ≤ ty1 |
| Fonts.AtlasHoldsNothing | src/core/font_writer.cpp:291 | the zeroed atlas holds no glyph yet and is zero everywhere |
| Fonts.BlitKeepsEarlier | src/core/font_writer.cpp:311-315 | copying glyph n keeps every pixel of an earlier glyph |
| Fonts.BlitWritesBox | src/core/font_writer.cpp:311-315 | copying glyph n gives each pixel of its box the glyph's level |
| Fonts.AtlasStep | src/core/font_writer.cpp:305-315 | copying glyph n's field into its box, and nothing else, draws one more glyph |
| Fonts.Blit | src/core/font_writer.cpp:311-315 | the two copy loops write glyph n's field into its box and leave every other byte |
| Fonts.DrawGlyph | src/core/font_writer.cpp:305-315 | the distance field of glyph n is computed and copied, so the atlas holds one more glyph |
| Fonts.QuadIndices | src/core/font_writer.cpp:130-135 | n quads have 6n indices |
| Fonts.QuadIndicesInRange | src/core/font_writer.cpp:130-135 | every index names one of the quads' own four vertices |
| Fonts.QuadIndicesSplit | src/core/font_writer.cpp:130-135 | the indices of a + b quads are those of the first a, then those of the next b |
| Fonts.CharCodeInTable | src/core/font_writer.cpp:115 | a byte has a glyph-table entry exactly when it is ASCII, because a signed char at or above 128 wraps far past 255 |
| Fonts.DropWraps | src/core/font_writer.cpp:118 | the unsigned `height - vertical_bearing` equals the signed drop unless the glyph lies wholly above the baseline, where it is 2^32 larger |
| Fonts.GlyphQuadOnBaseline | src/core/font_writer.cpp:117-123 | a glyph's quad starts at the bearing right of the pen; its top is the vertical bearing above the baseline and it is width by height at the scale; as written, a glyph above the baseline lands 2^32 pixels lower |
| Fonts.GlyphQuadAgrees | src/core/font_writer.cpp:117-123 | at a positive scale, the corrected quad equals the one render_line places exactly when the glyph reaches down to the baseline |
| Fonts.LineQuads | src/core/font_writer.cpp:120-123 | a line has four corners per character |
| Fonts.LineQuadsAsWritten | src/core/font_writer.cpp:114-128 | the quads render_line places with the unsigned drop, four corners per character |
| Fonts.LineQuadsAgree | src/core/font_writer.cpp:114-128 | at a positive scale, a line's corrected quads equal the source's exactly when every character of the line reaches the baseline |
| Fonts.LineTexture | src/core/font_writer.cpp:125-128 | a line has four texture coordinates per character |
| Fonts.LineStep | src/core/font_writer.cpp:114-138 | one more character adds its quad at the pen and its texture rectangle, and moves the pen on by its advance |
| Fonts.AppendChar | src/core/font_writer.cpp:114-138 | one pass of render_line's loop appends character i's quad, its texture rectangle and six indices, and moves the pen on |
| Fonts.AppendLine | src/core/font_writer.cpp:114-138 | render_line's loop appends the line's quads, texture rectangles and indices to buffers that already hold some quads |
| Fonts.LinesQuads | src/core/font_writer.cpp:77-79 | all lines have four corners per character |
| Fonts.LinesTexture | src/core/font_writer.cpp:77-79 | all lines have four texture coordinates per character |
| Fonts.LinesStep | src/core/font_writer.cpp:77-79 | one more line appends its quads and texture rectangles after those of the lines before it |
| Fonts.CharmapQuadPlacement | src/core/font_writer.cpp:197-209 | the atlas quad spans the texture's size and ends 10 pixels before the screen's right edge |
| Fonts.MovePen | src/core/font_writer.cpp:267-278 | the pen updates of the measuring loop are one layout step |
| Fonts.MeasureNext | src/core/font_writer.cpp:238-279 | one round measures a character into its glyph, unpacks its bitmap and moves the pen |
| Fonts.MeasureGlyphs | src/core/font_writer.cpp:238-287 | glyphs 32..126 get their metrics and unpacked bitmaps; other entries are unchanged; img_width is the widest complete row, as written; texture_height sums the row heights, including a final partial row; the open row's width is returned too, and its maximum with img_width is the corrected atlas width |
| Fonts.MoveRowPen | src/core/font_writer.cpp:322-329 | the placing loop's pen follows the same layout steps as the measuring loop |
| Fonts.PlaceGlyph | src/core/font_writer.cpp:299-320 | glyph j gets its pen position and its texture rectangle as fractions of the atlas |
| Fonts.PlaceNext | src/core/font_writer.cpp:297-330 | one round places one more glyph and copies its field into the atlas |
| Fonts.PlaceGlyphs | src/core/font_writer.cpp:291-330 | every character 32..126 is placed at its layout position; other entries are unchanged; the atlas holds every glyph's levels in its box and zero elsewhere |
| Fonts.FontWriter.constructor | src/core/font_writer.cpp:28-38 | base size 32, the character map displayed, a 255-entry glyph table that is blank outside 32..126, and the character map built |
| Fonts.FontWriter.GenerateCharacterMap | src/core/font_writer.cpp:227-330 | the glyph table and the atlas hold the character map, sized with the corrected width (the maximum of the measured width and the final partial row); entries outside 32..126 and the vertex buffers are unchanged |
| Fonts.FontWriter.RenderLine | src/core/font_writer.cpp:107-139 | appends four positions, four texture coordinates and six indices per character; the quads are the line's glyph quads, and when every glyph of the line reaches the baseline they are exactly the quads of the unsigned source |
| Fonts.FontWriter.AddCharmapToScreen | src/core/font_writer.cpp:197-222 | appends the atlas quad and its texture rectangle as one more quad |
| Fonts.FontWriter.Draw | src/core/font_writer.cpp:67-83 | the buffers are rebuilt from empty: the quads of every stored line, then the atlas quad when it is displayed; quads = total characters (+ 1) |
| Fonts.FontWriter.AddLine | src/core/font_writer.cpp:60-62 | appends one line to draw; the glyphs, the atlas and the vertex buffers are unchanged |
| Fonts.FontWriter.ResetLines | src/core/font_writer.cpp:56-58 | leaves no line to draw; the glyphs, the atlas and the vertex buffers are unchanged |
| PostProcessing.Bind | src/core/post_processor.cpp:108-114 | primary becomes active and secondary passive, and with distinct buffers the state is paired |
| PostProcessing.Swap | src/core/post_processor.cpp:206-227 | from a paired state active and passive are exchanged; since the branch looks only at the active framebuffer name, the result is paired from any state |
| PostProcessing.SwapTwice | src/core/post_processor.cpp:206-227 | swapping twice restores a paired state |
| PostProcessing.ActiveNotPassive | src/core/post_processor.cpp:206-227 | in a paired state the active and passive triples are different buffers, with different textures and framebuffers |
| PostProcessing.TwoPassesRestore | src/core/post_processor.cpp:179-182 | two passes after a bind leave primary active again |
| PostProcessing.PostProcessor.constructor | src/core/post_processor.cpp:28-94 | msaa 4, the given buffers, the unit quad, and its indices |
| PostProcessing.PostProcessor.BindFrameBuffer | src/core/post_processor.cpp:99-115 | draws into the msaa framebuffer and resets the pair to primary active, secondary passive |
| PostProcessing.PostProcessor.UnbindFrameBuffer | src/core/post_processor.cpp:120-122 | draws to the screen again and leaves the pair unchanged |
| PostProcessing.PostProcessor.SwapActiveBuffer | src/core/post_processor.cpp:206-227 | exchanges active and passive |
| PostProcessing.PostProcessor.Render | src/core/post_processor.cpp:232-248 | draws the quad with the active texture into the bound framebuffer |
| PostProcessing.PostProcessor.Pass | src/core/post_processor.cpp:189-201 | renders the active texture into the passive framebuffer, then swaps, so the filtered output becomes active |
| PostProcessing.PostProcessor.ApplyFilters | src/core/post_processor.cpp:179-182 | the horizontal then the vertical blur, which brings a paired state back to itself |
| PostProcessing.PostProcessor.ResampleBuffer | src/core/post_processor.cpp:169-174 | blits the msaa framebuffer into the primary framebuffer |
| PostProcessing.PostProcessor.Draw | src/core/post_processor.cpp:127-136 | after a bind: resample, blur primary into secondary, blur back into primary, and show the primary texture |
| Objects.BaseSize | src/core/object.cpp:33-64 | 16 exactly for the three matrix types; 4, 3 and 2 exactly for vec4, vec3 and vec2; 1 exactly for texture, uint, float and unknown types |
| Objects.NewProperty | src/core/object.cpp:30-69 | a new property declares its name, type and size, and holds size · base_size zeros |
| Objects.SetValue | src/core/object.cpp:76-80 | set_value overwrites exactly size · base_size values with the first ones of the source, in order |
| Objects.LayoutShape | src/core/object.cpp:98-109 | model, view, mvp and ambient_light sit at indices 0-3; "tex" is present exactly when the mesh has texture coordinates; a rigged mesh's "armature" of the bone count's size sits last at rig_idx |
| Objects.Rank | src/core/object.cpp:155-169 | the fixed order of the attribute kinds has five places |
| Objects.RankInjective | src/core/object.cpp:155-169 | two kinds share a place in the order exactly when they are the same kind |
| Objects.AttributesNamed | src/core/object.cpp:155-169 | each registered attribute carries its own GLSL name |
| Objects.AttributesSorted | src/core/object.cpp:155-169 | the attributes come in strictly increasing fixed order |
| Objects.AttributesPresence | src/core/object.cpp:155-169 | after the first r kinds, an attribute is present exactly when its kind is among them and its mesh bit is set |
| Objects.AttributesOrder | src/core/object.cpp:155-169 | load registers one attribute per set mesh bit and none for a clear bit, under its GLSL name, in the order position, normal, color, texture_coordinate, weights |
| Objects.Instantiate | src/core/object.cpp:207-210 | one new property per declaration, in order |
| Objects.InstantiateFacts | src/core/object.cpp:207-210 | freshly added properties are well-formed and zeroed, and they declare the list they came from |
| Objects.LayoutLaidOut | src/core/object.cpp:98-109 | the properties the constructor adds are laid out as draw and update index them |
| Objects.AdvanceAngle | src/core/object.cpp:186-190 | the angle advances by dt and wraps once by 2π, so it stays in [0, 2π] for steps within 2π |
| Objects.Object.constructor | src/core/object.cpp:88-115 | the properties declare the layout and are zeroed; rig_idx points at "armature" when rigged and is 0 otherwise; the angle is 0 |
| Objects.Object.AddBaseProperties | src/core/object.cpp:98-101 | adds model, view, mvp and ambient_light, in order |
| Objects.Object.AddProperty | src/core/object.cpp:207-210 | appends one property and returns its index, the old count; earlier properties are unchanged |
| Objects.Object.SetPropertyValue | src/core/object.cpp:218-220 | overwrites the values of one property and leaves the others |
| Objects.Object.Draw | src/core/object.cpp:127-130 | properties 0-3 get model, view, mvp and the sky colour; the rest are unchanged |
| Objects.Object.Load | src/core/object.cpp:147-177 | registers one uniform per property in order, and the attributes of the mesh type |
| Objects.Object.Update | src/core/object.cpp:184-196 | a rigged object advances its angle and stores the glsl matrices in the armature property; nothing else changes, and an unrigged object is unchanged |
| ConsoleModel.FeedRoundTrip | src/ui/console.cpp:73-83 | nothing is lost or reordered: the new lines, each followed by '\n', then the new pending text, spell old pending text + input |
| ConsoleModel.FeedCount | src/ui/console.cpp:74-79 | one log line per '\n', empty lines included |
| ConsoleModel.FeedNoNewline | src/ui/console.cpp:73-83 | neither the logged lines nor the pending text contain '\n' |
| ConsoleModel.Column | src/ui/console.cpp:85-99 | each column line is 15 below the one before, all at one x |
| ConsoleModel.LogEntries | src/ui/console.cpp:61 | one "[time] line" entry per log line |
| ConsoleModel.Console.constructor | src/ui/console.cpp:26-42 | the log starts with one "Starting log..." line stamped with the time since start, and log and log_times have equal length |
| ConsoleModel.Console.AddLineLog | src/ui/console.cpp:67-71 | appends one line and one timestamp, so log and log_times stay equal in length |
| ConsoleModel.Console.AddToLogStream | src/ui/console.cpp:73-83 | logs every complete line of pending text + input, keeps the rest pending, and keeps log and log_times parallel |
| ConsoleModel.Console.AddLineLeft | src/ui/console.cpp:85-91 | writes the line at x = 10 and the left cursor, then lowers that cursor by 15; the font writer's glyphs, atlas and vertex buffers are unchanged |
| ConsoleModel.Console.AddLineRight | src/ui/console.cpp:93-99 | writes the line at x = width / 2 and the right cursor, then lowers that cursor by 15; the font writer's glyphs, atlas and vertex buffers are unchanged |
| ConsoleModel.Console.Draw | src/ui/console.cpp:44-65 | both cursors restart 20 below the top; the writer's lines become the five left lines, then one right line per log entry; the font writer's glyphs, atlas and vertex buffers are unchanged |
| ConsoleModel.Console.AddLogColumn | src/ui/console.cpp:60-62 | the log loop appends one right-column line per log entry and lowers the right cursor by 15 each; the font writer's glyphs, atlas and vertex buffers are unchanged |
| ConsoleModel.Console.AddLogLine | src/ui/console.cpp:61 | one iteration of the log loop adds one more right-column line; the font writer's glyphs, atlas and vertex buffers are unchanged |
| ConsoleModel.Console.AddLeftColumn | src/ui/console.cpp:54-58 | the five left lines, from the top down; the font writer's glyphs, atlas and vertex buffers are unchanged |

## Left out

- GL calls: buffer and texture creation, uniform upload, draw calls, `static_load`, `window_reshape` and the destructors. A GL-dependent value, such as a buffer name, is a parameter instead; draws and blits are recorded as events.
- Floating point: floats and doubles are exact reals. Rounding, `fmod` and `sqrt` are not modelled. `glm::normalize` is an uninterpreted parameter `unit` in both terrains; it is applied wherever a normal reaches a mesh buffer or is summed. Matrices are an uninterpreted term algebra, so `glm::rotate` and `glm::inverse` are not computed.
- The noise generator: the Perlin heights and the colour jitter are parameters `noise` and `jitter`. `Terrain::generate_trees` (src/terrain.cpp:285-311) places trees at random points; it is not part of this model.
- OBJ parsing: the boost regexes and `lexical_cast` are replaced by pre-tokenised lines (`ObjLine`). The line-count print at the end is left out. The 435-vertex expectation in test/isana_test.cpp:30-32 depends on an asset file, so it is not part of this model.
- FreeType: the glyph bitmaps and 26.6 metrics are inputs (`GlyphFace`). The font file and the screen width are parameters.
- Console: `boost::format("%10.5f")` of the log times is the `stamps` parameter. The clock is the `now` parameter. `__FILE__`, `__DATE__`, the camera position and distance text, the square mesh and `FontWriter::get().draw()` are left out.
- ConsoleModel.Console.AddToLogStream: the source reads the clock once per logged line; the model takes one reading per call, so all lines of one call share a timestamp.
- ConsoleModel.Console.constructor: the source leaves `ly` and `ry` unset until the first `draw`; the model starts them at 0. src/ui/console.h is not part of this model, so their type is taken as a signed integer.
- CameraModel.Camera.constructor: the source assigns an `angle` member that src/core/camera.h does not declare, and leaves `theta` unset; the model starts `theta` at 0.
- PostProcessing.PostProcessor.constructor: the source leaves the active and passive handles uninitialised; the model starts them at 0.
- CoreArmature.Armature.SetWeights and CoreArmature.Armature.SetBoneTransformation: src/core/armature.h is not part of this model, so these accessors follow include/armature.h and their use in src/core/object.cpp.
- The Object constructor's two `set_bone_transformation` calls (one uses `rand()`) and the rotation in `update` act on the armature and are left out. The glsl matrices that `update` stores are a parameter.
- Objects.Object.Load: the shader is left out (src/core/shader.h is not part of this model); the model returns the uniforms and attributes it would register.
- Unsigned overflow of `size * base_size` in object properties, of the atlas size `img_width * img_height`, and of the weight buffer's `nr_bones * nr_vertices` and index `i * nr_bones + j` in `get_weights_vector` (src/core/armature.cpp:127,131 and src/armature.cpp:65-78; `Skeleton.TransposeWeights`) is not modelled.
- LegacyTerrain.Terrain.constructor: the triangles it stores keep the face normal before `glm::normalize` (src/terrain.cpp:61 normalises it). Only `get_height` reads that field, and the plane height does not depend on the normal's length (`TerrainGrid.PlaneHeightScaleInvariant`). The mesh normal buffer is normalised (`unit`).
- LegacyTerrain.Terrain.GenerateTerrain: as for the constructor, the stored triangles' `normal` is the face normal before `glm::normalize`; the flattened normal buffer holds `unit` of it, as src/terrain.cpp:176-178 does.
- EnvironmentTerrain.Terrain.constructor: the stored triangles' face `normal` is kept before `glm::normalize` (src/environment/terrain.cpp:66 normalises it); only `get_height` reads it, and the plane height does not depend on its length.
- EnvironmentTerrain.Terrain.GenerateTerrain: as for the constructor, the stored face `normal` is not normalised; the vertex normals it flattens are.
- EnvironmentTerrain.Terrain.GetHeight and LegacyTerrain.Terrain.GetHeight require that the lookup index is below the triangle count; outside it the source's access is undefined.
- Fonts.FontWriter.GenerateCharacterMap: the atlas uses the corrected width, which counts the final partial row (see Findings). `MeasureGlyphs` returns the source's width (`AtlasWidthAsWritten`); the correction is applied after it.
- Fonts.LineQuads: the quads use the signed drop of `GlyphQuad`, not the unsigned `height - vertical_bearing` of src/core/font_writer.cpp:118 (see Findings). `LineQuadsAgree` proves that the two coincide exactly when every character reaches the baseline; `LineQuadsAsWritten` keeps the source's quads.
- Fonts.LineStep: its quad step is the corrected `GlyphQuad`, as for `LineQuads`.
- Fonts.AppendChar: appends the corrected `GlyphQuad`, as for `LineQuads`.
- Fonts.AppendLine: appends the corrected `LineQuads`.
- Fonts.LinesQuads: built from the corrected `LineQuads`.
- Fonts.LinesStep: appends the corrected `LineQuads`.
- Fonts.FontWriter.RenderLine: its positions are the corrected `LineQuads`; for a glyph above the baseline the source places the quad 2^32 · scale lower. Its contract also states that the two agree for text whose glyphs all reach the baseline.
- Fonts.FontWriter.Draw: its positions are the corrected `LinesQuads`, as for `RenderLine`.
- The font writer's `font_padding`, `lines` and `display_charmap` fields are missing from src/core/font_writer.h; the model takes them from their uses in src/core/font_writer.cpp.
- ObjMesh.Mesh.Center: an empty mesh divides by zero in the source; the loop then changes nothing, which is what the model states.

## Findings

| source | as written | input that shows it | evidently intended | confidence | as-written member | corrected member |
|---|---|---|---|---|---|---|
| src/terrain.cpp:364-368 | the older `get_height` reads triangle `2 * idx(i, j)` (+ 1), with row stride width + 1 | on the 50 x 50 grid, (49.5, 49.5) reads triangle 5096, but there are 5000 triangles | the generation order `2 * (i + width * j)`, as src/environment/terrain.cpp:346-350 has it | high, not executed | LegacyTerrain.LegacyLookupOverrun | TerrainGrid.LookupMatchesGeneration |
| src/core/font_writer.cpp:118 | `height - vertical_bearing` is computed in unsigned int | a glyph 2 pixels tall whose top is 10 pixels above the baseline drops by 4294967288 instead of -8 | the signed drop, which places the glyph above the baseline | medium, not executed | Fonts.DropWraps | Fonts.GlyphQuadOnBaseline |
| src/core/font_writer.cpp:273-287 | `texture_width` is the widest complete row; the final partial row is ignored | 95 unit glyphs except the 91st, which is 20 wide: the atlas is 10 x 10, and that glyph's top-right pixel is written at 109 in a 100-byte buffer | the width also counts the final partial row | low, not executed | Fonts.AtlasWidthOverrun | Fonts.AtlasCellsDistinct |

# atlas-packer core, modelled in Dafny

This project models the integer and bookkeeping layer of the atlas-packer
texture-atlas packer. Textures are cut out of source images around the UV
polygons of meshes. Textures whose boxes overlap are merged into clusters,
and the clusters are packed into numbered atlases by a texture placer.

| file | module | models |
|---|---|---|
| `disjoint_set.dfy` | `DisjointSets` | `DisjointSet` of `src/disjoint_set.rs`, plus the path compression that `create_cluster` calls |
| `texture_utils.dfy` | `TextureUtils` | `uv_to_pixel_coords` and `calc_bbox` of `src/texture/utils.rs` |
| `texture.dfy` | `Texture` | `DownsampleFactor`, the integer part of `CroppedTexture::new`, `overlaps` and `covers` of `src/texture/mod.rs` |
| `enumeration.dfy` | `Enumeration` | hash-map iteration: every key once, in an order the program does not choose |
| `clustering.dfy` | `Clustering` | `AtlasPacker::create_cluster` of `src/pack.rs` |
| `pack.dfy` | `Packing` | `AtlasPacker`, `pack` and `PackedAtlasProvider::get_texture_info` of `src/pack.rs` |
| `paths.dfy` | `Paths` | equality of `PathBuf`, which `overlaps` and `covers` use to compare image paths |
| `wrappers.dfy` | `Wrappers` | `Option`, and `Result` for operations that panic |

The union-find is a class over a parent `array<nat>`. Two ghost fields
support the proofs. `rootOf` gives the partition, and `rank` decreases
strictly along every parent edge, which is why the recursive `root` terminates.

`create_cluster` is modelled as its three loops:

- the pairwise union over all `i < j`;
- the grouping of ids by root;
- one cluster per group, built from a toplevel fold and a child per member.

The clustering is proved to be exactly the connected components of the
"boxes overlap" relation. Every texture id lands in exactly one cluster.

`pack` is modelled in two forms that are proved equal:

- a loop that updates the working atlas, the stored atlases and the placement map;
- the fold of a `Step` function.

The placer (`can_place`, `place_texture`, `reset_param`) and the texture
operations (`bbox_overlaps`, `ToplevelTexture::new`, `expand`, `get_child`)
are parameters given as pure functions.

Behaviour of the code worth noting:

- `calc_bbox` of no points returns the fold's seed `(u32::MAX, u32::MAX, 0, 0)` (src/texture/utils.rs:25).
- `pack` places every cluster right after the `can_place` check and `reset_param`, without asking again whether it fits (src/pack.rs:112-126).
- When `can_place` fails, the working atlas is stored even when it is empty (src/pack.rs:112-117). So a first cluster that does not fit leaves an empty atlas under id 0 (`FirstClusterRejected`).
- `create_cluster` calls `compress` (src/pack.rs:54), but `src/disjoint_set.rs` defines no `compress`; its line 8 is a TODO about path compression. It is modelled as "repoint every element at its root".
- Image paths are compared as `PathBuf`s (src/texture/mod.rs:78 and 91): component by component, so `img//a.png` and `img/a.png` are the same image.

## Model

| member | source | states |
|---|---|---|
| `DisjointSets.DisjointSet.constructor` | src/disjoint_set.rs:10-14 | every element is its own parent and root; `is_same(x, y)` holds exactly when `x == y` |
| `DisjointSets.DisjointSet.Root` | src/disjoint_set.rs:16-23 | the result is in range, is a root (`parent[r] == r`) and is the element's class representative; terminates because rank decreases along parent edges |
| `DisjointSets.DisjointSet.RootIdempotent` | src/disjoint_set.rs:16-23 | `root(root(x)) == root(x)` |
| `DisjointSets.RankAboveRoot` | src/disjoint_set.rs:16-23 | the root of a non-root element has strictly smaller rank, which bounds the recursion |
| `DisjointSets.DisjointSet.IsSame` | src/disjoint_set.rs:31-33 | true exactly when both elements have the same representative |
| `DisjointSets.DisjointSet.Unite` | src/disjoint_set.rs:25-29 | only `parent[root(x)]` changes, to `root(y)`; the forest stays acyclic; afterwards `is_same(x, y)`; `is_same(a, b)` holds afterwards iff it held before or `a` and `b` each lie in the class of `x` or of `y`; uniting two elements of one class changes nothing |
| `DisjointSets.RelabelJoins` | src/disjoint_set.rs:25-29 | the partition after linking is the join of the two classes, in both directions; elements outside the linked class keep their representative; linking a class to itself changes nothing |
| `DisjointSets.LinkKeepsForest` | src/disjoint_set.rs:26-28 | linking one root under another keeps the forest invariant, with the joined representatives and lifted ranks |
| `DisjointSets.RepointKeepsForest` | src/pack.rs:54 | pointing one element straight at its root keeps the forest invariant |
| `DisjointSets.DisjointSet.Compress` | src/pack.rs:54 | every element's parent becomes its root, and every element's root is unchanged |
| `DisjointSets.ScenarioFirstUnions` | src/disjoint_set.rs:41-44 | after `unite(0,1)`, `unite(3,4)` and `unite(1,2)` on five elements the classes are {0,1,2} and {3,4} |
| `DisjointSets.UniteScenario` | src/disjoint_set.rs:40-50 | the unit test's outcomes: `is_same(0,2)`, then `!is_same(0,3)`, then `is_same(0,4)` after `unite(0,3)` |
| `TextureUtils.CalcBBox` | src/texture/utils.rs:23-30 | no points give `(u32::MAX, u32::MAX, 0, 0)`; otherwise the box holds every point, every side is touched by a point, and `min <= max` on both axes |
| `TextureUtils.TightBoxUnique` | src/texture/utils.rs:23-30 | only one box holds a point set and touches it on every side, so `calc_bbox` is the smallest box |
| `TextureUtils.CalcBBoxPermutation` | src/texture/utils.rs:24-29 | the box does not depend on the order of the points |
| `TextureUtils.SaturatingU32` | src/texture/utils.rs:16-17 | the `as u32` cast maps non-positive values to 0 and truncates in-range values to the integer below |
| `TextureUtils.UvToPixel` | src/texture/utils.rs:14-19 | defines the pixel of one UV point: u clamped to [0, 1] and scaled by the width, v clamped, flipped and scaled by the height, each capped at the last index and cast to u32 |
| `TextureUtils.UvToPixelCoords` | src/texture/utils.rs:11-21 | one pixel per UV point, in the same order, each with `x <= width - 1` and `y <= height - 1` |
| `TextureUtils.UvToPixelInImage` | src/texture/utils.rs:14-19 | a single converted point lies inside the image |
| `TextureUtils.ScaledInSide` | src/texture/utils.rs:16-17 | a clamped coordinate scales to at most the last index of its side |
| `TextureUtils.VFlip` | src/texture/utils.rs:17 | v is flipped: `v >= 1` lands on row 0, and `v <= 0` on the last row |
| `TextureUtils.UEdges` | src/texture/utils.rs:16 | u is not flipped: `u <= 0` lands on column 0, and `u >= 1` on the last column |
| `TextureUtils.ScaleMonotone` | src/texture/utils.rs:16-17 | scaling a coordinate to an index is monotone |
| `TextureUtils.SaturatingMonotone` | src/texture/utils.rs:16-17 | the saturating cast is monotone |
| `TextureUtils.PixelMonotone` | src/texture/utils.rs:11-21 | the pixel column is monotone in u, and the row is antitone in v |
| `TextureUtils.UnitSquareBBox` | src/texture/utils.rs:11-30 | the unit square on a 100 x 100 image spans pixels (0, 0) to (99, 99) |
| `Texture.DownsampleFactor.Value` | src/texture/mod.rs:25-27 | returns the stored factor, which lies in [0, 1] because the field's type only holds such factors |
| `Texture.NewDownsampleFactor` | src/texture/mod.rs:17-27 | succeeds exactly for factors in [0, 1], and `value()` then returns the factor; any other factor is the panic |
| `Texture.NewCroppedTexture` | src/texture/mod.rs:44-74 | fails (the u32 subtraction) exactly when there are no UVs; otherwise the origin and size are those of the pixels' bounding box, there is one crop-local offset per UV that places its pixel relative to the origin, the box stays inside the image, and the path and factor are kept |
| `Texture.CropToPixels` | src/texture/mod.rs:51-54 | the crop of a pixel list fails exactly when the list is empty, and otherwise is the crop of those pixels |
| `Texture.CropToBox` | src/texture/mod.rs:53-73 | origin `(min_x, min_y)`, `width = max_x - min_x`, `height = max_y - min_y`, and one offset per pixel |
| `Texture.BoxedPixels` | src/texture/mod.rs:56-64 | every pixel lies in its bounding box, so `x - min_x` and `y - min_y` cannot underflow |
| `Texture.CropOfBBox` | src/texture/mod.rs:66-73 | a texture spanning the bounding box of the pixels is their crop |
| `Texture.Overlaps` | src/texture/mod.rs:77-86 | false for textures whose image paths differ as `PathBuf`s |
| `Texture.OverlapsIffSharedPixel` | src/texture/mod.rs:77-86 | true exactly when the image paths are equal as `PathBuf`s and the closed boxes share a pixel |
| `Texture.OverlapsSymmetric` | src/texture/mod.rs:85 | symmetric |
| `Texture.OverlapsReflexive` | src/texture/mod.rs:85 | reflexive |
| `Texture.TouchingOverlaps` | src/texture/mod.rs:85 | boxes that only touch along an edge (`x1 + w1 == x2`) count as overlapping |
| `Texture.Covers` | src/texture/mod.rs:90-103 | a `Some` offset means image paths equal as `PathBuf`s, locates `b`'s origin inside `a`, and gives `dx + w2 <= w1` and `dy + h2 <= h1` |
| `Texture.CoversIffContains` | src/texture/mod.rs:90-103 | `Some` exactly when the image paths are equal as `PathBuf`s and `b`'s closed box lies within `a`'s |
| `Texture.CoversImpliesOverlaps` | src/texture/mod.rs:98-99 | a covered texture overlaps its cover |
| `Texture.CoversSelf` | src/texture/mod.rs:98-99 | every texture covers itself with offset (0, 0) |
| `Texture.SpellingsOfOneImage` | src/texture/mod.rs:77-103 | two 10 x 10 textures at (0, 0) of `img/a.png` and `img//a.png` overlap, and the first covers the second with offset (0, 0) |
| `Paths.Components` | src/texture/mod.rs:78 | the components of a path, as `PathBuf` equality compares them: a root or leading `.` only first, and no named component empty, `.`, `..` or holding a separator |
| `Paths.SamePath` | src/texture/mod.rs:78 | defines `PathBuf` equality as equality of the component lists |
| `Paths.DoubledSeparator` | src/texture/mod.rs:78 | a doubled separator is a single one (`img//a.png` is `img/a.png`) |
| `Paths.CurDirDropped` | src/texture/mod.rs:78 | a `.` after a separator is no component (`a/./b` is `a/b`) |
| `Paths.TrailingSeparator` | src/texture/mod.rs:78 | a trailing separator is ignored on a non-empty path |
| `Paths.RootIsComponent` | src/texture/mod.rs:78 | `/a` and `a` differ |
| `Paths.LeadingCurDirIsComponent` | src/texture/mod.rs:78 | `./a` and `a` differ |
| `Paths.ParentDirIsComponent` | src/texture/mod.rs:78 | `..` is not resolved: `a/../b` and `b` differ |
| `Texture.NewCroppedTextureFits` | src/texture/mod.rs:66-70 | for a texture built by `new`, `origin + size` stays below `u32::MAX`, so the sums in `overlaps` and `covers` cannot overflow |
| `Enumeration.EnumerateKeys` | src/pack.rs:39 | the keys of a hash map, each exactly once |
| `Clustering.InOrder` | src/pack.rs:46-47 | position i holds the texture of `ids[i]` |
| `Clustering.ConnectedTrans` | src/pack.rs:44-53 | chains of overlapping pairs compose |
| `Clustering.RelabelKeepsSound` | src/pack.rs:49-51 | uniting a tested overlapping pair keeps every class connected |
| `Clustering.UniteStep` | src/pack.rs:49-51 | uniting an overlapping pair keeps the classes connected and records the pair as done |
| `Clustering.SkipStep` | src/pack.rs:49 | a pair that does not overlap needs no union |
| `Clustering.UniteIfOverlapping` | src/pack.rs:46-51 | one pass of the inner loop body keeps the invariant and completes pair (i, j) |
| `Clustering.UniteRow` | src/pack.rs:45-52 | after the inner loop for i, every overlapping pair `(i, j)` shares a root |
| `Clustering.SingletonsSound` | src/pack.rs:42 | the singleton partition's classes are connected |
| `Clustering.PathSameRoot` | src/pack.rs:44-53 | once every overlapping pair shares a root, so do both ends of every chain |
| `Clustering.AllUnitedIsComplete` | src/pack.rs:44-53 | after all pairs, two elements share a root exactly when a chain of overlaps joins them |
| `Clustering.PairwiseUnion` | src/pack.rs:41-53 | after the nested loop, two positions share a root exactly when a chain of overlapping pairs joins them |
| `Clustering.GroupByRoot` | src/pack.rs:59-67 | the keys are exactly the roots, and each entry lists the ids with that root, in order |
| `Clustering.GroupStep` | src/pack.rs:63-66 | pushing one id onto its root's entry extends the grouping by one position |
| `Clustering.MembersAreClass` | src/pack.rs:59-67 | the group of a root is exactly the ids connected to it |
| `Clustering.FoldToplevel` | src/pack.rs:73-82 | defines the toplevel fold over the members in order: from `None` the next texture starts a new toplevel (`ToplevelTexture::new`), from `Some` it is widened by `expand`, and an `expand` that gives `None` makes the next texture start afresh |
| `Clustering.FoldToplevelSome` | src/pack.rs:73-82 | when `expand` never fails, the toplevel fold succeeds exactly for non-empty member lists |
| `Clustering.BuildCluster` | src/pack.rs:72-98 | fails exactly when the toplevel fold is `None`; otherwise the children are the members in order, each paired with its `get_child` |
| `Clustering.BuildClusters` | src/pack.rs:70-100 | one cluster per group, with the same keys; fails exactly when some group's toplevel fold fails |
| `Clustering.ClassesOfRoots` | src/pack.rs:59-67 | with compressed roots, each position's group is its connected class |
| `Clustering.GroupsAreClasses` | src/pack.rs:59-100 | grouping by compressed roots and then building clusters gives the clustering of the textures |
| `Clustering.ClusterInOrder` | src/pack.rs:38-103 | fails exactly when some class's toplevel fold fails; otherwise every key is a position whose cluster holds exactly the ids connected to it, every texture is connected to a key, and no two keys are connected |
| `Clustering.OneLinkedKey` | src/pack.rs:59-67 | a position connected to one of several pairwise unconnected keys is connected to exactly one |
| `Clustering.ClusterIdsCount` | src/pack.rs:84-90 | an id occurs among the clusters' children once for each key its texture is connected to |
| `Clustering.IdOccursOnce` | src/pack.rs:59-90 | each texture id occurs exactly once among the children of all clusters |
| `Clustering.ChildrenPartitionIds` | src/pack.rs:59-90 | the children of all clusters, concatenated, are a permutation of the texture ids, so their total count is the number of textures |
| `Clustering.ChildIsTexture` | src/pack.rs:84-90 | every child id of a cluster is a texture id |
| `Clustering.ClusterIdsWithin` | src/pack.rs:84-90 | every id among the children of the clusters of an order is a texture id, by `ChildIsTexture` |
| `Clustering.OverlappingShareCluster` | src/pack.rs:49-50 | two textures that `bbox_overlaps` are children of the same clusters |
| `Clustering.ClusterSharesKey` | src/pack.rs:49-67 | a cluster never mixes textures that differ in a key that overlapping textures share, such as the components of the image path |
| `Packing.ZipInsert` | src/pack.rs:130-137 | defines the zip of child placements with child ids: the first n pairs in order, each `Some` placement inserted under its id |
| `Packing.ZipInsertFacts` | src/pack.rs:130-137 | the zip stops at the shorter list; an id gets an entry exactly when one of its pairs is `Some`; untouched ids keep their entry; the last placement for an id wins |
| `Packing.ZipInsertGrows` | src/pack.rs:130-137 | the zip keeps every earlier entry and adds every id with a `Some` placement |
| `Packing.RecordPlacements` | src/pack.rs:130-137 | the inner loop computes the zip |
| `Packing.GetTextureInfo` | src/pack.rs:191-193 | `Some` exactly for ids in the placement map, with the recorded value |
| `Packing.Flush` | src/pack.rs:112-117 | defines the `can_place` check: if the placer can take the toplevel, nothing changes; otherwise the working atlas is stored under id `atlases.len()`, a new empty one starts and the placer is reset |
| `Packing.Step` | src/pack.rs:111-137 | defines one loop iteration: the flush, then `place_texture` with the cluster and the id `atlases.len()`, the toplevel geometry appended to the working atlas, and the child placements zipped into the placement map |
| `Packing.Finish` | src/pack.rs:140-152 | defines the end of `pack`: the working atlas is stored under the next id only if it is non-empty, and the provider gets the atlases, the clusters and the placement map |
| `Packing.PackClusters` | src/pack.rs:105-153 | defines `pack` once the clusters and their iteration order are fixed: the loop over the clusters in that order from an empty state, then the last-atlas step |
| `Packing.StoreNext` | src/pack.rs:113-114 | storing under `atlases.len()` keeps the atlas ids gapless and adds one atlas |
| `Packing.FlushKeepsPaged` | src/pack.rs:112-117 | when `can_place` fails, the working atlas is stored as the page of its id and a new empty one starts |
| `Packing.PlaceKeepsPaged` | src/pack.rs:119-128 | the geometry placed under the working atlas's id is appended to that page |
| `Packing.RunInvariant` | src/pack.rs:111-138 | during the loop the stored atlases are the pages of their ids, and after the first cluster the working atlas is never empty |
| `Packing.PackAtlases` | src/pack.rs:105-153 | atlas ids are exactly 0 to n-1; atlas a holds, in order, every geometry placed with atlas id a, so the id given to `place_texture` is the id its atlas is stored under; there is an atlas iff there is a cluster; the last atlas is non-empty |
| `Packing.FirstClusterRejected` | src/pack.rs:112-117 | when the first cluster does not fit, atlas 0 is stored empty |
| `Packing.FirstPlacedInOne` | src/pack.rs:112-119 | when the first cluster does not fit, every cluster is placed with an atlas id of at least 1 |
| `Packing.AtlasSizesCountClusters` | src/pack.rs:111-146 | the atlas sizes sum to the number of clusters |
| `Packing.InfoOnlyForChildren` | src/pack.rs:130-137 | only children of placed clusters get a placement |
| `Packing.EveryChildPlaced` | src/pack.rs:130-137 | with a placer that places every child, every child of every cluster gets a placement |
| `Packing.TextureIsChild` | src/pack.rs:84-90 | every texture id is a child of some cluster |
| `Packing.InfoForEveryTexture` | src/pack.rs:105-193 | with such a placer, `get_texture_info` answers `Some` exactly for the added texture ids |
| `Packing.PlaceClusters` | src/pack.rs:111-146 | the packing loop and last-atlas step compute `PackClusters` |
| `Packing.AtlasPacker.constructor` | src/pack.rs:18-24 | a new packer has no textures |
| `Packing.AtlasPacker.AddTexture` | src/pack.rs:34-36 | the texture is stored under its id, replacing any earlier one; nothing else changes |
| `Packing.AtlasPacker.CreateCluster` | src/pack.rs:38-103 | for some iteration order of the texture ids, the result is the clustering of the textures, or the unwrap panic |
| `Packing.AtlasPacker.Pack` | src/pack.rs:105-153 | the clustering, or its panic; on success, for some iteration order of the clusters, the result is `PackClusters` of the clusters, about which the `Packing` lemmas above are proved |

## Left out

- `CroppedTexture::crop` and `is_point_inside_polygon`: image I/O, thread-parallel pixel loops and floating-point ray casting.
- The crop-local UV division by the crop width and height. The model keeps each pixel's integer offset from the origin, which is the numerator of that division.
- `get_image_size` and `PackedAtlasProvider::export`: file I/O and foreign exporters.
- `Paths.SamePath`: Unix paths only. Windows prefixes and `\` separators are not modelled, and a path is a string, not an `OsStr` of arbitrary bytes.
- Floating point: UVs and the downsample factor are `real`. Rounding, NaN and infinities of `f64`/`f32` are not modelled.
- `Texture.Overlaps`: the sums `x + w` are taken on unbounded integers, not in u32. They cannot wrap for textures built by `new`, as `NewCroppedTextureFits` shows.
- `Texture.Covers`: the sums are unbounded in the same way.
- `Texture.NewCroppedTexture`: an empty UV list underflows `max_x - min_x` in u32. That panic in debug builds is modelled as a `Failure`. Release builds would wrap instead, and that is not modelled.
- The placer, `bbox_overlaps`, `ToplevelTexture::new`, `expand` and `get_child` are abstract functions. Their definitions are not part of this model.
- Placer state is passed as a value, so in-place mutation of the placer and aliasing are not captured.
- Hash-map iteration order is an arbitrary enumeration, chosen nondeterministically. Every property holds for any order.
- Cluster ids and atlas ids are `usize::to_string` in the source and `nat` in the model. `to_string` is injective, so keys and lookups are unaffected.
- Indices out of range panic in `root` and `unite`. The model makes `x < n` a precondition instead.
- `DisjointSets.DisjointSet.Compress`: `compress` does not exist in `src/disjoint_set.rs`. It is modelled as path compression that keeps every element's root.
- Deep recursion in `root` (stack overflow) is not modelled.

# a-tlas: the voxel world index and the double-buffered TLAS

This project models the host-side core of a-tlas. a-tlas is a voxel renderer that
draws a chunked voxel world through a top-level acceleration structure (TLAS) of
ray-tracing instances. The model covers five parts:

- **The sparse chunked voxel index** (`World`, `WorldCoords`, `WorldIndex`).
  - The world is an open cube of side 2·64·64 voxels around the origin.
  - Each world position splits into a chunk grid position and a local offset in [0, 64)³. The split is floor division built from truncating `/`.
  - A chunk owns the voxels of one 64³ cell and carries a visibility flag.
  - Insertion panics outside the world or the chunk, and refuses an occupied position.
  - `to_instances` turns every chunk's voxels into instances. It keeps the voxels aligned to the level-of-detail stride, orders the chunks by an integer distance from a reference point, and truncates the result to a capacity.
- **Loading a `.vox` scene** (`Loader`).
  - The scene-graph walk accumulates translations through transform nodes, resets them at group nodes, and collects one entry per shape model.
  - A file without a scene graph has every voxel inserted straight into the chunks. The first voxel at a position wins.
- **The reader side of the double-buffered TLAS** (`Render`).
  - The render task builds two TLAS copies from the same instance list.
  - Each frame, it binds the copy that the shared index names and clears the shared "show" flag.
- **The writer side** (`AsyncWorker`, `UpdateAs`).
  - One worker cycle runs per message. It waits for the graphics frame counter to move past the last frame it saw.
  - It then refits the copy that is not shown, after rewriting a random window of the instance buffer.
  - Finally it publishes that copy by flipping the index and raising the show flag.
- **The graphics-side variant of the window update** (`AsUpdate`). It resets a random window of a 2^20-instance buffer to the default instance.

The code's unrecoverable failures are modelled as values: `Fallible.Panicked(reason)`. They are `panic!`, `unwrap` of a missing entry, `unimplemented!`, slice indexing past the end, u64 underflow, and an empty `random_range`. The two sources of nondeterminism become parameters:

- `rand` draws are the `samples` and `start` parameters;
- `HashMap` iteration order is the `order` and `voxelOrder` parameters.

Objects whose fields the code updates in place are classes:

- `Chunk`, `Chunks`, `SceneGraphTraverser`, `RayTracingRenderTask`, and the worker's state;
- the instance buffer, which is an `array`.

## Model

| member | source | states |
|---|---|---|
| WorldCoords.InBoundsIsOpenCube | src/world/chunk.rs:293-312 | a position is in bounds iff every axis lies strictly between -4096 and 4096 |
| WorldCoords.LowestCellCornerExcluded | src/world/chunk.rs:28-30 | grid cell -64 exists, yet -4096 is out of bounds (both ends of the interval are excluded); -4095 splits into cell -64, offset 1 |
| WorldCoords.TruncDiv | src/world/chunk.rs:314-318 | `/` on i32 truncates toward zero: a non-negative quotient rounds down, a negative one rounds up |
| WorldCoords.GridAxisIsFloor | src/world/chunk.rs:338-380 | shifting a negative coordinate by -63 before the truncating division gives floor division, with a remainder in [0, 64) |
| WorldCoords.TranslationToPosition | src/world/chunk.rs:338-380 | panics (OutOfBounds) exactly for out-of-bounds positions; otherwise grid·64 + local == position with every local axis below 64 |
| WorldCoords.TranslationIsFloorDivision | src/world/chunk.rs:338-380 | for in-bounds positions the split is (position div 64, position mod 64) on every axis, with floored division and remainder |
| WorldCoords.TranslationInjective | src/world/chunk.rs:338-380 | two in-bounds positions with the same split are equal |
| WorldCoords.TranslationExamples | src/world/chunk.rs:338-380 | (70,5,5) splits into ((1,0,0),(6,5,5)); -1 splits into chunk -1, offset 63 |
| WorldCoords.InBoundsHasGridCell | src/world/chunk.rs:320-329 | every in-bounds position splits without panicking, into a grid cell in [-64,64)³ that `create_empty_chunks` creates |
| WorldCoords.Isqrt | src/world/chunk.rs:314-318 | isqrt(n) is the r with r² <= n < (r+1)² |
| WorldCoords.DistanceToChunkMeaning | src/world/chunk.rs:314-318 | the distance d satisfies d² <= lengthSquared(origin/64 - grid) < (d+1)², with origin/64 truncated; it is 0 iff grid == origin/64 |
| World.DivisibleByPow2IsRemainder | src/world/chunk.rs:70-79 | the level-of-detail filter test is `v % 2^lod == 0` |
| World.Chunk.constructor | src/world/chunk.rs:39-46 | a default chunk is visible and empty |
| World.Chunk.SetVisible | src/world/chunk.rs:49-51 | sets the flag and leaves the voxels alone |
| World.Chunk.Insert | src/world/chunk.rs:123-133 | panics (OutsideChunk) if a local axis is >= 64; returns false and keeps the map on an occupied key; otherwise adds exactly that key and returns true |
| World.Chunk.KeptLocals | src/world/chunk.rs:73-80 | a local position is kept iff it is a voxel of the chunk whose three axes are divisible by 2^lod |
| World.Chunk.KeptLocalsDistinct | src/world/chunk.rs:73-80 | filtering an iteration order without repeats keeps no position twice |
| World.Chunk.ToInstances | src/world/chunk.rs:65-121 | one instance per kept voxel, in iteration order, each carrying the BLAS reference, the voxel's material index and scale, mask 0xFF if the chunk is visible else 0x00, stride 2^lod, the offset sum of s/2 for s < lod, and translation 64·grid + local |
| World.Chunk.ToInstancesExact | src/world/chunk.rs:65-121 | over a full iteration of the map, the instances are exactly the aligned voxels, each once |
| World.Chunk.ToInstancesCoverAligned | src/world/chunk.rs:65-121 | every aligned voxel has an instance at its world position |
| World.Chunk.ToInstancesComeFromAligned | src/world/chunk.rs:65-121 | every instance is the instance of some aligned voxel |
| World.Chunk.ToInstancesDistinct | src/world/chunk.rs:65-121 | no two instances share a translation |
| World.Chunk.ToInstancesTranslations | src/world/chunk.rs:90-111 | the translation of the i-th instance is 64·grid + the i-th kept local position |
| World.InsertVoxel | src/world/chunk.rs:489-503 | panics when out of bounds or when the chunk is missing; returns None iff the position was occupied, else Some(grid of the position); only that world position changes, and no visibility flag changes |
| World.CreateEmptyChunks | src/world/chunk.rs:320-329 | exactly the grid cells of [-64,64)³, each with its own fresh, visible, empty chunk |
| World.FillChunk | src/world/chunk.rs:531-552 | inserting every local position of an empty chunk, x then y then z, leaves exactly the 64³ local positions |
| World.FillRow | src/world/chunk.rs:537-549 | the innermost z loop adds one row of 64 new positions |
| World.InsertAlongX | src/world/chunk.rs:554-582 | inserting x = 0..4095 along the x axis of an empty full world reports chunk (x/64, 0, 0) each time; afterwards exactly those 4096 positions hold the voxel |
| WorldIndex.GridOfWorldPosition | src/world/chunk.rs:90-111 | a voxel's world position 64·grid + local falls back in chunk `grid` |
| WorldIndex.SortByKey | src/world/chunk.rs:448-453 | the in-place sort leaves the array ordered by the key and a permutation of its old contents |
| WorldIndex.InsertLast | src/world/chunk.rs:448-453 | one insertion step extends the sorted prefix by one element and permutes the array |
| WorldIndex.Chunks.SortedActiveChunks | src/world/chunk.rs:446-453 | the collected active chunks, sorted: a permutation of the active chunks, ordered by distance, each present and visible |
| WorldIndex.TakeKeeps | src/world/chunk.rs:462 | truncation keeps the distance order and the visible masks |
| WorldIndex.Chunks.Default | src/world/chunk.rs:288-290 | the derived default world has no chunk |
| WorldIndex.Chunks.From | src/world/chunk.rs:427-429 | wraps the given chunk map unchanged |
| WorldIndex.Chunks.Contains | src/world/chunk.rs:473-479 | panics when out of bounds or when the chunk is missing; otherwise true iff the world position holds a voxel |
| WorldIndex.Chunks.GetVoxel | src/world/chunk.rs:481-487 | panics when out of bounds or when the chunk is missing; otherwise the voxel stored at the world position, if any |
| WorldIndex.Chunks.FullGridQueries | src/world/chunk.rs:601-615 | in a world with every grid cell, `contains` and `get_voxel` panic exactly out of bounds, and `contains` is true iff `get_voxel` finds a voxel |
| WorldIndex.Chunks.SetChunkVisibility | src/world/chunk.rs:466-471 | panics on a missing chunk; otherwise sets that chunk's flag, with no other flag and no voxel changed |
| WorldIndex.Chunks.ActiveChunks | src/world/chunk.rs:331-336 | a grid position is listed iff it has a chunk that is non-empty and visible |
| WorldIndex.Chunks.ActiveChunksDistinct | src/world/chunk.rs:331-336 | filtering a map iteration order without repeats lists no chunk twice |
| WorldIndex.Chunks.ActiveChunksEnumerate | src/world/chunk.rs:331-336 | when the order enumerates the map, any permutation of the active chunks lists each non-empty visible chunk exactly once and nothing else |
| WorldIndex.SameMultisetNoDuplicates | src/world/chunk.rs:448-453 | sorting (any permutation) keeps a list free of repeats |
| WorldIndex.Chunks.BlockGrid | src/world/chunk.rs:455-460 | every instance of a chunk lies in that chunk |
| WorldIndex.Chunks.BlockDistance | src/world/chunk.rs:455-460 | every instance of a chunk shares that chunk's distance |
| WorldIndex.Chunks.FlatInstancesOrdered | src/world/chunk.rs:448-460 | flattening chunks sorted by distance gives instances whose chunk distances never decrease |
| WorldIndex.Chunks.FlatInstancesVisible | src/world/chunk.rs:455-460 | flattening visible chunks gives instances that all carry mask 0xFF |
| WorldIndex.Chunks.FlatInstancesFromAligned | src/world/chunk.rs:455-460 | every flattened instance is the instance of an aligned voxel of one of the listed chunks |
| WorldIndex.Chunks.FlatInstancesCover | src/world/chunk.rs:455-460 | when every chunk's walk covers its voxel map, every aligned voxel of every listed chunk has a flattened instance at its world position |
| WorldIndex.Chunks.FlatInstancesInGrids | src/world/chunk.rs:455-460 | every flattened instance falls in one of the listed chunks |
| WorldIndex.Chunks.FlatInstancesDistinct | src/world/chunk.rs:455-460 | over distinct chunks each walking its voxel map once, no two flattened instances share a position |
| WorldIndex.Chunks.FlatInstancesExact | src/world/chunk.rs:455-460 | over distinct chunks with enumerating walks, the flattened instances are exactly the aligned voxels of those chunks, each once |
| WorldIndex.ConcatDistinct | src/world/chunk.rs:455-460 | one chunk's instances followed by instances of other chunks repeat no position when neither part does |
| WorldIndex.DistinctPrefix | src/world/chunk.rs:462 | truncation keeps positions distinct |
| WorldIndex.Chunks.ToInstances | src/world/chunk.rs:440-464 | the chunk list is a permutation of the active chunks, sorted by distance; the result is the flattened instance list truncated to min(total, max), with every mask 0xFF and chunk distances non-decreasing; every instance is that of an aligned voxel of a listed chunk; when the map order enumerates the map, the list holds each non-empty visible chunk once; when the voxel walks enumerate too, no two instances share a position; when nothing is truncated and the walks enumerate, every aligned voxel of every listed chunk has an instance |
| WorldIndex.Chunks.TruncatedExact | src/world/chunk.rs:440-464 | what of the world-level exactness survives truncation to the first n instances |
| Loader.CollectChildrenPanicSticks | src/world/loader.rs:55-59 | a panic in one child ends the whole group walk |
| Loader.CollectFromModels | src/world/loader.rs:60-78 | every collected entry carries the size and non-empty voxels of a model of the file |
| Loader.CollectChildrenFromModels | src/world/loader.rs:55-59 | the same for the entries of a group's children |
| Loader.TransformDiscardsRotation | src/world/loader.rs:49-53 | a transform node's walk does not depend on the rotation it receives |
| Loader.GroupResets | src/world/loader.rs:55-59 | a group node's walk depends on neither the incoming translation nor the incoming rotation |
| Loader.FlatVoxels | src/world/loader.rs:17 | every voxel of every model occurs in the flattened list |
| Loader.FirstAt | src/world/loader.rs:17-25 | a position gets a voxel iff some voxel of the list lands on it |
| Loader.FirstAtSnoc | src/world/loader.rs:17-25 | a later voxel only fills a position that no earlier voxel took |
| Loader.FirstWinsSnoc | src/world/loader.rs:17-25 | one more insert fills its position only if neither the old world nor an earlier voxel took it |
| Loader.VoxPositionInBounds | src/world/loader.rs:20 | a `.vox` voxel (byte coordinates, axes y and z swapped) always lies inside the world |
| Loader.SceneGraphTraverser.constructor | src/world/chunk.rs:385-389 | starts with no collected models over the given chunks and scene |
| Loader.SceneGraphTraverser.TraverseRecursive | src/world/loader.rs:32-80 | appends exactly the entries the walk collects or ends in its panic: a missing node or model index panics; a transform or shape node without exactly one frame or model is `unimplemented!`; a transform adds its frame position (or zero) and passes on its own orientation (or identity); a group walks its children in order from zero and identity; an empty model appends nothing |
| Loader.SceneGraphTraverser.TraverseChildren | src/world/loader.rs:55-59 | walks the children of a group in order from zero and identity, appending their entries, and stops at the first panic |
| Loader.SceneGraphTraverser.Traverse | src/world/loader.rs:15-30 | without scene nodes, every position ends up holding its old voxel if it had one, else the first model voxel placed there, with scale 1.0 and the palette index; it panics (MissingChunk) iff some model voxel falls in a grid cell without a chunk, so never in a full world; with scene nodes, the walk starts at node 0 from zero and identity and no chunk changes |
| Loader.SceneGraphTraverser.InsertModelVoxels | src/world/loader.rs:16-26 | each position ends up holding its old voxel if it had one, else the first model voxel placed there; panics (MissingChunk) iff some model voxel falls in a grid cell without a chunk, so never in a full world |
| Loader.SceneGraphTraverser.InsertModelVoxel | src/world/loader.rs:18-25 | one insert at the voxel's world position (y and z swapped) with scale 1.0 and its palette index: panics (MissingChunk) iff its chunk is missing; otherwise fills the position only if it was empty |
| Loader.FullGridHoldsAll | src/world/loader.rs:17-20 | in a world with every grid cell, every `.vox` voxel has its chunk |
| Instances.SampledInstances | src/tasks/render.rs:105-119 | one instance per draw, each with the BLAS reference, mask 0xFF, the drawn custom index, an identity 3×3 part and the drawn translation |
| Instances.Overwrite | src/tasks/update_as.rs:66-83 | the window slots take the new instances in order; every other slot is kept |
| Render.CopyInstances | src/tasks/render.rs:301-306 | the zip copy sets slot i to instance i while both last, and leaves the other slots alone |
| Render.RayTracingRenderTask.constructor | src/tasks/render.rs:104-187 | the instance buffer holds exactly the generated instances; both TLAS copies are built from that same list; the index starts at copy 0 with the show flag set |
| Render.RayTracingRenderTask.Execute | src/tasks/render.rs:399-414 | reads the index once and never writes it; clears the show flag; binds the id of that copy, which differs from the other copy's id |
| UpdateAs.ByteRangeIsWindow | src/tasks/update_as.rs:61-69 | the byte range is whole instance slots [start, start+1024), which stay below max - 1 when start < max - 1024 |
| UpdateAs.UpdateAccelerationStructureTask.constructor | src/tasks/update_as.rs:31-45 | keeps the BLAS reference and the instance count |
| UpdateAs.UpdateAccelerationStructureTask.Execute | src/tasks/update_as.rs:55-127 | panics on u64 underflow when max < 1024, on an empty draw range when max == 1024, and when the window passes the buffer's end; it succeeds whenever max > 1024 and the window fits; on a panic the buffer is unchanged; otherwise the buffer becomes the old buffer with the window overwritten by the sampled instances, and the build is an update of the given TLAS into itself, preferring a fast build, allowing updates, over all `max as u32` instances |
| UpdateAs.UpdatedInstancesWellFormed | src/tasks/update_as.rs:71-83 | every written instance has the task's BLAS reference, mask 0xFF, a custom index below 256, an identity 3×3 part and integer translations in [-256, 256] |
| AsUpdate.DefaultWindow | src/tasks/as_update.rs:48-50 | 4096 copies of the default instance |
| AsUpdate.UpdateAccelerationStructureTask.constructor | src/tasks/as_update.rs:12-15 | keeps the BLAS reference |
| AsUpdate.UpdateAccelerationStructureTask.Execute | src/tasks/as_update.rs:20-53 | the write panics iff the window [start, start+4096) passes the buffer's end, so never on the 2^20-instance buffer; a panic leaves the buffer unchanged; otherwise every window slot becomes the default instance and every other slot is kept |
| AsUpdate.WindowInsideBuffer | src/tasks/as_update.rs:37-46 | with start < 2^20 - 4096, the window stays inside the 2^20 buffer and never reaches its last slot |
| AsyncWorker.Worker.constructor | src/async_worker.rs:61-62 | `last_frame` starts at 0, and the worker starts idle next to copy 0 |
| AsyncWorker.Worker.WaitForNewFrame | src/async_worker.rs:69-71 | the poll loop returns None iff every reading equals `last_frame`; otherwise it returns the first reading that differs |
| AsyncWorker.Worker.BeginUpdate | src/async_worker.rs:73-75 | waits for frame `last_frame`; the back copy is the negation of the index read now |
| AsyncWorker.Worker.UpdateBack | src/async_worker.rs:78-89 | panics iff the instance count is at most 1024, and then leaves phase, copies and buffer unchanged; otherwise the build's destination is the back copy, never the shown one; the shown copy's instances are unchanged; the back copy is refitted from the updated buffer |
| AsyncWorker.Worker.Publish | src/async_worker.rs:91-100 | after the idle wait: `last_frame` is the counter read now, the index flips to the back copy, and the show flag is raised |
| AsyncWorker.Worker.RenderFrame | src/tasks/render.rs:399-414 | a frame taken in the middle of a cycle binds the published copy, never the one being refitted, and keeps the handoff invariant |
| AsyncWorker.Worker.Cycle | src/async_worker.rs:64-100 | returns Done(false) iff every counter reading equals `last_frame`, and then the index, the show flag and the buffer are unchanged; it panics iff a new frame came and the instance count is at most 1024, leaving index, copies and buffer unchanged; a completed cycle rewrites the sampled window of the buffer, flips the index, raises the show flag, sets `last_frame` to the counter read after the update, moves the old shown copy to the back, and shows the refitted copy |
| AsyncWorker.Worker.Run | src/async_worker.rs:64-105 | one cycle per message; it stops at the end of the inbox, at a disconnect, or at a message whose counter readings all equal `last_frame`; it never panics when the instance count exceeds 1024; `last_frame` is the frame after the last completed cycle; after n cycles the index equals its old value XOR (n odd) |

## Left out

- Floating point: voxel scales and the level-of-detail offset are exact reals, so f32 rounding is not modelled. The floating sphere sampling in the render task's `new` is a given integer draw.
- `Chunks::new` (src/world/chunk.rs:382-425) is `create_empty_chunks` followed by `traverse`. Both are modelled. Its placement of scene-graph models through a `Mat4` (lines 393-422) is floating point and is left out. `SceneGraphTraverser::to_transform` is left out for the same reason.
- `Chunk::debug_lines`, `Chunks::debug_lines` and the `Display` impl are rendering aids, not index logic.
- Integer widths:
  - the model does not wrap i32 arithmetic in `distance_to_chunk` or `translation_to_position`, whose in-bounds values cannot overflow anyway;
  - `2u32.pow(lod)` overflows for lod >= 32 and is not modelled;
  - custom indices are not limited to the 24 bits of `Packed24_8`;
  - `start * AS_SIZE` does not wrap in u64.
- World.Chunk.ToInstances: the `HashMap` iteration order is the parameter `order`. So the order of a chunk's instances is whatever that parameter says.
- WorldIndex.Chunks.ToInstances: its duplicate-freedom and coverage clauses hold under the hypothesis that `order` and `voxelOrder` enumerate their maps, as a real `HashMap` iteration does. The parameters are not constrained, so the other clauses hold for any order.
- WorldIndex.SortByKey: does not state that `sort_by` is stable. The chunk list comes from a hash-map iteration order, which is itself unspecified, so the order among chunks at equal distance is left unspecified.
- UpdateAs.UpdateAccelerationStructureTask.Execute: in release builds `max - 1024` wraps instead of panicking. The model takes the debug-build panic, and it does not model the `?` error path of the write apart from the out-of-range case. The worker `unwrap`s that error anyway.
- Loader.SceneGraphTraverser.TraverseRecursive: requires a rank that orders the scene graph (an acyclic graph). A cyclic `.vox` scene graph makes the walk recurse forever, which is not modelled.
- Render.RayTracingRenderTask.constructor: requires a positive instance count, because `ilog2` of 0 panics. The Vulkan setup, buffers, pipeline and shader binding table are not part of this model. The registered ids are given as parameters.
- Threads and memory ordering: the worker and the renderer are interleaved as sequential steps on one shared state. The `Relaxed` atomics give no ordering guarantee, and none is claimed.
- GPU work is not modelled: `wait_for_frame`, `wait_idle`, command recording, and the TLAS build itself. A build is recorded as the instance list its copy was refitted from. The graphics frame counter is a sequence of readings given as a parameter.
- Wiring of the worker: no code in the repository calls `run_worker`. src/lib.rs declares no `async_worker` module and drives its TLAS through the task of src/tasks/as_update.rs. The model therefore assumes the wiring that the shared handles suggest: the worker's update task writes the render task's instance buffer and has the render task's instance count, and the two TLAS copies and the two atomic flags are the render task's. The channel sender and the timing printout are not part of this model.
- World.InsertAlongX: states the 4096 stored positions through the world lookup, rather than through the sum of chunk sizes that the test computes.

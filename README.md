# tpm core, modelled in Dafny

tpm is a small path tracer. A scene is parsed from XML into flat arenas of
signed-distance-function (SDF) nodes and materials. A CPU prototype marches
rays against them. Pixels are rendered tile by tile into float buffers, and
the work is spread over OpenCL devices by a host/orchestrator layer. Around
this sit a fixed-size matrix template, a keyframe spline, a C logger and a
CPU-utilisation helper.

This project models that core, one module per source file:

- `Scene` (src/scene.hpp): datatypes and constructor functions.
- `SceneParse` (src/scene.cpp): class `TpmSpec` whose arenas the parse methods append to, specified by recursive functions over an abstract XML tree.
- `SdfOps` (src/sdf.hpp): functions over real vectors, with `length` as a square-root oracle.
- `CpuMarch` (src/cpu.c): the march loop and `path_trace` as methods, the material word as `bv64`.
- `Render` (src/render.hpp): 32-bit bit-vector RNG steps, in-place state update, tile and index arithmetic.
- `ImageStore` (src/image.hpp, src/image.cpp): classes `Tile` (vectors as `seq`) and `Image` (buffers as arrays), tiling and a row-by-row merge.
- `Host` (include/tpm/host.hpp, src/host.cpp): class `HostImpl` over five uuid-keyed maps, with the cross-reference invariant `Consistent`.
- `Orchestration` (src/orchestrator.cpp): class `Orchestrator`, device filtering and OR-aggregation over hosts.
- `Spline` (include/tpm/spline.hpp): class `Spline` with sorted insert and keyframe lookup.
- `Linalg` (include/tpm/linalg.hpp): class `Matrix` over an `int` array, the naive and divide-and-conquer products.
- `Log` (src/log.c, src/log.h): class `Logger` (sink registry), with the `log_print` interpreter as a loop proved against a step function.
- `SysInfo` (src/sysinfo.cpp): `calc_cpu_percentage` with explicit 32-bit wrap-around.
- `IntArith`: shared non-linear arithmetic lemmas.

Modelling conventions:

- **Numbers.**
  - `float` and `double` become `real`.
  - `length`/`sqrt` is a function parameter, constrained only where a lemma needs it (`SdfOps.SqrtAt`).
  - Unsigned 32-bit arithmetic is written out: `bv32` in `Render`, and `% 2^32` in `SysInfo` and `Orchestration`.
  - `std::size_t` becomes `nat`. Its `SIZE_MAX` sentinel is the constant `Scene.NoHandle`.
- **UUIDs.**
  - A name-based UUID (RFC 4122 section 4.3) is `Named(name)`, so two equal names give equal uuids.
  - A random UUID is `Random(serial)`, drawn from a counter that only grows.
- **OpenCL results** arrive as parameters:
  - the enumerated platforms and their devices;
  - the set of contexts on which a program build succeeds.
- **The logger's environment** arrives as given strings:
  - the clock;
  - the basename of the file;
  - the already-formatted message.
- **As written vs. corrected.** `CpuMarch.SdTranslate` is modelled as written. It adds the offset where `op_translate` in src/sdf.hpp subtracts it, so the cpu.c scene sphere sits at z = -5. Its contract states that relation outright.

## Model

| member | source | states |
|---|---|---|
| `SysInfo.UsedDelta` | src/sysinfo.cpp:41-42 | the used time is the sum of the user, nice and system deltas reduced mod 2^32 |
| `SysInfo.CpuPercentage` | src/sysinfo.cpp:33-45 | -1 when a counter went backwards, else 100 * used / total over 32-bit deltas (BackwardsIsSentinel, PercentageInRange) |
| `SysInfo.BackwardsIsSentinel` | src/sysinfo.cpp:38-40 | the result is -1 exactly when some counter is below its previous value |
| `SysInfo.NoWrapSums` | src/sysinfo.cpp:41-43 | when no partial sum exceeds 32 bits, used and total are the exact sums of the deltas |
| `SysInfo.PercentageInRange` | src/sysinfo.cpp:41-44 | without wrap-around and for two different samples, the result is a value in [0, 100] |
| `SysInfo.IdleOnlyIsZero` | src/sysinfo.cpp:41-44 | progress in idle time only gives 0 |
| `SysInfo.NoIdleIsHundred` | src/sysinfo.cpp:41-44 | progress without idle time gives 100 |
| `SysInfo.NoProgressIsNaN` | src/sysinfo.cpp:43-44 | two equal samples give 0/0, which is NaN |
| `SysInfo.WrappedTotalIsInfinite` | src/sysinfo.cpp:41-44 | a used delta of 0xFFFFFFFF plus one idle tick wraps the total to 0 and gives +infinity |
| `SdfOps.Dot2` | src/sdf.hpp:7 | dot2 of a 2-vector is non-negative and zero only at the zero vector |
| `SdfOps.Dot2Of3` | src/sdf.hpp:8 | dot2 of a 3-vector is non-negative and zero only at the origin |
| `SdfOps.NDotSymmetric` | src/sdf.hpp:9-11 | ndot is symmetric, and ndot(a, a) + 2*a.y^2 is dot2(a) |
| `SdfOps.Sphere` | src/sdf.hpp:12-14 | the distance to a sphere of radius s at the origin (SphereDistance, SphereAtOrigin) |
| `SdfOps.SphereDistance` | src/sdf.hpp:12-14 | at a point at distance d from the centre, the sphere distance is d - s |
| `SdfOps.SphereAtOrigin` | src/sdf.hpp:12-14 | at the origin the sphere distance is -s |
| `SdfOps.Box` | src/sdf.hpp:15-19 | the box distance: the outside length plus the non-positive inside term (BoxOfNegativeExcess, BoxStrictlyInside) |
| `SdfOps.BoxInsideNonPositive` | src/sdf.hpp:18 | the inside term min(max(q), 0) is never positive |
| `SdfOps.BoxOutsideNonNegative` | src/sdf.hpp:17 | the outside term length(max(q, 0)) is never negative |
| `SdfOps.BoxOutsideVanishes` | src/sdf.hpp:17 | with every component of q negative, the outside term is 0 |
| `SdfOps.BoxOfNegativeExcess` | src/sdf.hpp:16-18 | with every component of q negative, the box distance is the largest component |
| `SdfOps.BoxStrictlyInside` | src/sdf.hpp:15-19 | a point strictly inside the box gets the largest component of abs(p) - b |
| `SdfOps.OpTranslate` | src/sdf.hpp:21-24 | moves the query point by -t, undone by translating by -t (OpTranslateInverse) |
| `SdfOps.OpTranslateInverse` | src/sdf.hpp:21-24 | translating by t and then by -t gives back p, and translating by zero is the identity |
| `SdfOps.OpUnion` | src/sdf.hpp:25-27 | the union is at most both distances and equals one of them |
| `SdfOps.OpUnionCommutative` | src/sdf.hpp:25-27 | the union does not depend on the order of its arguments |
| `CpuMarch.SdTranslate` | src/cpu.c:11-15 | the result is op_translate by -t (an addition), and op_translate by t undoes it |
| `CpuMarch.SdSphere` | src/cpu.c:17-19 | the prototype sphere is the sdf.hpp sphere |
| `CpuMarch.Sdf` | src/cpu.c:20-29 | t and m are overwritten exactly when the scene distance is strictly below t, with the scene material; otherwise both are unchanged |
| `CpuMarch.BudgetDecreases` | src/cpu.c:30-38 | a step of at least EPSILON below MAX_DISTANCE strictly decreases the termination measure |
| `CpuMarch.RayMarch` | src/cpu.c:30-40 | the loop computes the recursive march |
| `CpuMarch.MarchFromFar` | src/cpu.c:31 | starting at or beyond MAX_DISTANCE the march changes nothing |
| `CpuMarch.MarchExit` | src/cpu.c:31-38 | on exit t is at least MAX_DISTANCE, or the last step from some t0 was below EPSILON and set the scene material |
| `CpuMarch.DecodePack` | src/cpu.c:50-54 | type, red, green and blue are bits 60-63, 52-59, 44-51 and 36-43: decoding a packed word gives back its fields |
| `CpuMarch.SceneMaterialFields` | src/cpu.c:27 | the scene material is a LIGHT with colour bytes 0x03, 0xA9, 0xF4 |
| `CpuMarch.Shade` | src/cpu.c:42-60 | a miss shades with the sky colour, a hit on a non-LIGHT material shades black, and every channel lies in [0, 1] |
| `CpuMarch.PathTrace` | src/cpu.c:44-61 | each channel of c is increased by the shade of the march from t = 0 (accumulated, not assigned) |
| `CpuMarch.PathTraceColour` | src/cpu.c:44-61 | a hit adds the colour bytes / 255 of the scene material, and a miss adds zero |
| `Scene.MatOf2` | src/scene.hpp:18-20 | the two-argument material keeps type, colour and args |
| `Scene.MatOfScalar` | src/scene.hpp:21-22 | the scalar material stores args = (s, 0) |
| `Scene.SdfOf4` | src/scene.hpp:30-33 | the float4 node keeps its args, and mat, a and b are the no-handle sentinel |
| `Scene.SdfOfScalars` | src/scene.hpp:34-39 | the scalar node stores (a1, a2, a3, a4) with sentinel links |
| `Scene.SdfOf3` | src/scene.hpp:40-44 | the float3 node pads args[3] with 0 and has sentinel links |
| `Scene.SdfOf2` | src/scene.hpp:45-49 | the float2 node pads args[2] and args[3] with 0 and has sentinel links |
| `Scene.ConstructorsPadWithZero` | src/scene.hpp:34-49 | the float3 and float2 forms equal the scalar form with omitted arguments 0 |
| `SceneParse.TpmSpec.constructor` | src/scene.hpp:55-67 | a fresh specification has output.png at 1920x1080 with tile 32, 64 spp, and empty arenas |
| `SceneParse.FindEmission` | src/scene.cpp:23-34 | the search finds the first child named emission, or reports that there is none |
| `SceneParse.MatOfCases` | src/scene.cpp:21-36 | parse_mat either appends nothing and returns the sentinel (no emission child), or appends one EMISSION material built from an emission child and returns its index |
| `SceneParse.TpmSpec.ParseMat` | src/scene.cpp:21-36 | the loop's effect on mats and its result are those of MatOf, and sdfs are untouched |
| `SceneParse.BuildSphere` | src/scene.cpp:38-43 | a sphere returns the index of a new node and the arenas only grow |
| `SceneParse.SphereAppendsOne` | src/scene.cpp:38-43 | parse_sphere appends exactly one SPHERE with args[0] = r and returns its index; its mat is parse_mat's result |
| `SceneParse.TpmSpec.ParseSphere` | src/scene.cpp:38-43 | the method's new arenas and handle are those of BuildSphere |
| `SceneParse.BuildTranslate` | src/scene.cpp:45-53 | a translate's own node is appended first, so its handle is the old arena length, and the arenas only grow |
| `SceneParse.TpmSpec.ParseTranslate` | src/scene.cpp:45-53 | the method's new arenas and handle are those of BuildTranslate |
| `SceneParse.BuildUnion` | src/scene.cpp:55-62 | a union returns the index of its own node and the arenas only grow |
| `SceneParse.UnionOrder` | src/scene.cpp:55-62 | the union's a is the first child's handle (the sentinel or the next index); its b is the sentinel or the index just past the first child's whole subtree |
| `SceneParse.TpmSpec.ParseUnion` | src/scene.cpp:55-62 | the method's new arenas and handle are those of BuildUnion |
| `SceneParse.ParseChild` | src/scene.cpp:59-60 | parsing the k-th child only grows the arenas and returns the sentinel or the index of the first new node |
| `SceneParse.TpmSpec.ParseNth` | src/scene.cpp:59-60 | the method's effect is that of ParseChild |
| `SceneParse.Build` | src/scene.cpp:64-77 | a known element returns the index of a new node; an unknown one appends nothing and returns the sentinel |
| `SceneParse.TpmSpec.ParseSdf` | src/scene.cpp:64-77 | the method's new arenas and handle are those of Build, and image and renderer settings are untouched |
| `SceneParse.BuildKeepsLinked` | src/scene.cpp:38-77 | parsing keeps every link valid and pointing forward (child index greater than parent), so the arena has no cycles |
| `SceneParse.ChildKeepsLinked` | src/scene.cpp:51-60 | parsing one child keeps the arena linked |
| `SceneParse.PatchKeepsLinked` | src/scene.cpp:51-60 | patching a just-created node's a, b or mat with forward handles keeps the arena linked |
| `Render.Random` | src/render.hpp:25-33 | the four state words become their Tausworthe/LCG successors and the draw is the xor of the new words |
| `Render.NextStatePerWord` | src/render.hpp:25-29 | each new state word depends only on its own old value |
| `Render.TausStep` | src/render.hpp:15-20 | one Tausworthe step on a 32-bit word, shifts below 32 (TausSmallSeedsCollapse, NextStatePerWord) |
| `Render.LcgStep` | src/render.hpp:21-24 | one LCG step a * z + c mod 2^32 (NextStatePerWord) |
| `Render.TausSmallSeedsCollapse` | src/render.hpp:15-20 | seeds below 2, 8 and 16 send the three Tausworthe words to 0 |
| `Render.TileAsWritten` | src/render.hpp:43-54 | the tile as written ends inside the image |
| `Render.TileWrapsAtTheTop` | src/render.hpp:43-54 | as written, a tile inside the grid can end before it starts (32-bit wrap) |
| `Render.SpanFromAgrees` | src/render.hpp:45-46 | where start + ts fits in 32 bits, the clamped end is the source's |
| `Render.SpanAgreesWithoutOverflow` | src/render.hpp:44-46 | where id * ts + ts fits in 32 bits, the clamped span is the source's |
| `Render.Tile` | src/render.hpp:43-54 | the corrected tile ends inside the image |
| `Render.TileAgreesWithoutOverflow` | src/render.hpp:43-54 | without overflow, the corrected tile is the source's tile |
| `Render.CeilDiv` | src/render.hpp:65-68 | the grid count is the least count whose tiles cover n |
| `Render.SpanInsideGridIsNonEmpty` | src/render.hpp:43-68 | a span inside the grid starts at id * ts and is non-empty |
| `Render.TileInsideGridIsNonEmpty` | src/render.hpp:43-68 | every tile id inside tile_size() yields a non-empty tile at (i * ts, j * ts) |
| `Render.Idx` | src/render.hpp:56-63 | the row-major pixel index, below w * h for in-range coordinates and injective (IdxInRange, IdxInjective) |
| `Render.IdxInRange` | src/render.hpp:56-63 | idx is c1 * w + c0 and lies below w * h |
| `Render.IdxInjective` | src/render.hpp:56-63 | distinct in-range coordinates have distinct indices |
| `Render.NewImage` | src/render.hpp:36-38 | the image keeps its size and holds zero pixels, exactly w * h of them when w * h fits in 32 bits |
| `ImageStore.BufferFlags` | src/image.hpp:13-19 | the buffer flags are distinct single bits and ALL is their union |
| `ImageStore.Allocate` | src/image.cpp:20-38 | a buffer is zero-filled to its size when its flag is set, and empty otherwise |
| `ImageStore.Tile.constructor` | src/image.cpp:13-39 | the tile allocates and zeroes exactly the buffers whose flag is set, with 3 floats per pixel (1 for depth) |
| `ImageStore.Tile.Set` | src/image.hpp:28-50 | out-of-range coordinates and unallocated buffers change nothing; otherwise only the chosen buffer's pixel changes (r, g, b at (y*w+x)*3, or r at y*w+x for depth) |
| `ImageStore.SetStaysInside` | src/image.hpp:33-48 | the indices set writes lie inside the buffer |
| `ImageStore.Image.constructor` | src/image.cpp:49-79 | the image allocates and zeroes exactly the buffers whose flag is set, each separate |
| `ImageStore.Image.Size` | src/image.hpp:77 | width * height, the pixel count: each allocated colour buffer holds 3 * size() floats and the depth buffer size() |
| `ImageStore.Image.GetBuffer` | src/image.cpp:93-103 | get_buffer returns the named buffer, or null for a value that names no single buffer |
| `ImageStore.CeilDiv` | src/image.cpp:107-110 | tiles_wide and tiles_tall are the least counts of tiles that cover the image |
| `ImageStore.SpanInside` | src/image.cpp:112-116 | a tile span is tile_size long except in the last column or row, where it ends exactly at the image edge |
| `ImageStore.SpanMembership` | src/image.cpp:111-117 | a coordinate lies in span c exactly when it divides down to c |
| `ImageStore.TileInside` | src/image.cpp:105-118 | every tile below tile_count() is non-empty, at most tile_size wide and tall, and inside the image |
| `ImageStore.TileOfInRange` | src/image.cpp:160-163 | the tile of every pixel is below tile_count() |
| `ImageStore.InTileIff` | src/image.cpp:105-118 | a pixel lies in tile i exactly when its column and row divided by tile_size give i's grid position |
| `ImageStore.TilesPartition` | src/image.cpp:105-118 | every pixel lies in exactly one of the tiles 0 .. tile_count()-1 |
| `ImageStore.Image.GetTile` | src/image.cpp:105-118 | get_tile(i) has the grid geometry of i and the image's buffer flags |
| `ImageStore.Image.GetTiles` | src/image.cpp:120-138 | get_tiles() returns tile_count() tiles, the i-th with the geometry of get_tile(i) |
| `ImageStore.MergePixel` | src/image.cpp:140-158 | after merging, an image pixel inside the tile holds the tile's pixel (x - xoff, y - yoff), and every other pixel is unchanged |
| `ImageStore.Image.MergeTile` | src/image.cpp:140-158 | every image buffer the tile owns becomes the row-by-row merge, and the others are unchanged |
| `ImageStore.MergeBuffers` | src/image.cpp:142-157 | the row loop leaves each buffer the tile holds data for equal to its merge of all tile rows, and the others as they were |
| `ImageStore.MergeBufferRow` | src/image.cpp:143-156 | one buffer's share of an iteration extends its merge by one row, and a buffer the tile has no data for is untouched |
| `ImageStore.CopyRow` | src/image.cpp:143-156 | one loop iteration extends the merge by one row |
| `ImageStore.Memcpy` | src/image.cpp:146-156 | memcpy replaces exactly n elements at the offset |
| `Host.EmptyConsistent` | include/tpm/host.hpp:113-118 | empty maps satisfy the cross-reference invariant |
| `Host.HostImpl.constructor` | src/host.cpp:31 | a new host starts with empty maps |
| `Host.InsertNew` | src/host.cpp:106 | unordered_map::insert adds a missing key and never overwrites an existing one |
| `Host.RegisterDevicesFacts` | src/host.cpp:70-109 | registering a platform's devices only adds entries; each enumerated device is present, and each new entry names the platform |
| `Host.InfoExtends` | src/host.cpp:45-113 | info() only adds platforms and devices and leaves contexts, queues, kernels and the counter alone |
| `Host.InfoRegisters` | src/host.cpp:45-113 | every enumerated device is registered, and so is every platform that has devices |
| `Host.DevicelessPlatformNotRegistered` | src/host.cpp:61-68 | a platform without devices is reported but leaves the maps unchanged |
| `Host.RegisterPlatformConsistent` | src/host.cpp:45-113 | registering one platform keeps the cross-reference invariant |
| `Host.InfoConsistent` | src/host.cpp:35-116 | info() keeps the cross-reference invariant |
| `Host.HostImpl.GetInfo` | src/host.cpp:35-116 | the response reports every platform with its devices, and the maps become RegisterPlatforms of the old maps |
| `Host.HostImpl.RegisterOne` | src/host.cpp:45-113 | one loop iteration reports the platform and registers it |
| `Host.GroupsCover` | src/host.cpp:123-131 | every requested device's platform has a group, and there are groups iff devices were requested |
| `Host.GroupsDistinct` | src/host.cpp:123-131 | no platform has two groups |
| `Host.GroupsMembers` | src/host.cpp:123-131 | each group lists exactly its platform's requested devices, in request order |
| `Host.NoGroupNoMembers` | src/host.cpp:123-131 | a platform with requested devices has a group |
| `Host.HostImpl.GroupByPlatform` | src/host.cpp:121-131 | the grouping loop computes Groups |
| `Host.InitializeResult` | src/host.cpp:120-158 | initialize reports true exactly when some device was requested |
| `Host.Initialized` | src/host.cpp:118-161 | initialize() of known uuids as a function of the maps (InitializeConsistent, InitializeContexts, InitializeFrame, InitializeResult) |
| `Host.InitializeConsistent` | src/host.cpp:118-161 | initialize keeps the cross-reference invariant |
| `Host.InitializeContexts` | src/host.cpp:133-156 | each requested device's platform group gets one fresh context, with that device's context and a fresh queue recorded as (context, device) |
| `Host.InitializeNewContexts` | src/host.cpp:133-156 | every new context belongs to a platform with requested devices and is that platform's context |
| `Host.InitializeFrame` | src/host.cpp:118-161 | initialize only adds contexts and queues, leaves kernels alone, and changes no platform or device that was not requested |
| `Host.HostImpl.AddQueuesLoop` | src/host.cpp:142-155 | the queue loop computes AddQueues |
| `Host.HostImpl.InitGroupOnce` | src/host.cpp:134-157 | one group's iteration computes InitGroup |
| `Host.HostImpl.InitGroupsLoop` | src/host.cpp:133-158 | the group loop initialises every group and reports whether there was one |
| `Host.HostImpl.Initialize` | src/host.cpp:118-161 | the maps become Initialized of the old maps, and the result is true iff devices were requested |
| `Host.CompileResult` | src/host.cpp:166-198 | compile reports true exactly when some listed platform's context builds |
| `Host.CompileKernels` | src/host.cpp:168-198 | each successful build adds one kernel recorded against that platform's context and set as its kernel; a failed build changes nothing |
| `Host.CompileSerial` | src/host.cpp:187 | compile never moves the uuid counter backwards |
| `Host.CompileFrame` | src/host.cpp:168-198 | compile changes no context field other than kernel |
| `Host.CompileOneConsistent` | src/host.cpp:169-197 | one platform's build keeps the cross-reference invariant |
| `Host.CompileConsistent` | src/host.cpp:163-200 | compile keeps the cross-reference invariant |
| `Host.HostImpl.CompileOn` | src/host.cpp:169-197 | one iteration computes CompileOne |
| `Host.HostImpl.Compile` | src/host.cpp:163-200 | the new maps and the result are those of Compiled |
| `Host.Compiled` | src/host.cpp:163-200 | compile leaves platforms, devices and queues alone and adds no context (CompileResult and CompileKernels give the rest) |
| `Host.CompiledGuarded` | src/host.cpp:163-200 | the compile() that skips a platform without a context leaves platforms, devices and queues alone and adds no context |
| `Host.CompiledGuardedAgrees` | src/host.cpp:163-200 | when every listed platform has a context, the guarded compile is the source's |
| `Host.CompileGuardedResult` | src/host.cpp:166-198 | the guarded compile reports true exactly when some listed platform has a context whose build succeeds |
| `Host.CompileGuardedConsistent` | src/host.cpp:163-200 | the guarded compile keeps the cross-reference invariant |
| `Host.HostImpl.CompileGuarded` | src/host.cpp:163-200 | the guarded loop's new maps and result are those of CompiledGuarded, for any list of uuids |
| `Orchestration.Valid` | include/tpm/host.hpp:63 | only a HostImpl reports valid() (src/host.cpp:33), and the base Host does not |
| `Orchestration.HostInfo` | include/tpm/host.hpp:64 | the base host reports no platforms; a HostImpl runs info() |
| `Orchestration.HostInitialize` | include/tpm/host.hpp:66 | the base host returns false; a HostImpl runs initialize() |
| `Orchestration.HostCompile` | include/tpm/host.hpp:68-70 | the base host returns false; a HostImpl runs compile() |
| `Orchestration.HostCompileGuarded` | include/tpm/host.hpp:68-70 | the base host returns false; a HostImpl runs the guarded compile() |
| `Orchestration.SpirV` | src/orchestrator.cpp:31-33 | spirv_support holds iff some IL string starts with SPIR-V |
| `Orchestration.Record` | src/orchestrator.cpp:29-33 | a kept device records its uuid and max_memory, an ops value below 2^32, and SPIR-V support iff some IL version starts with SPIR-V |
| `Orchestration.KeptAppend` | src/orchestrator.cpp:25-45 | filtering distributes over concatenation, so report order is kept |
| `Orchestration.KeptMembers` | src/orchestrator.cpp:25-34 | a record is kept iff it comes from a device that is available and has a compiler |
| `Orchestration.KeptAllUsable` | src/orchestrator.cpp:25-34 | when every device is usable, all are kept, in order |
| `Orchestration.KeepUsable` | src/orchestrator.cpp:25-45 | the device loop computes Kept |
| `Orchestration.Summaries` | src/orchestrator.cpp:23-47 | one summary per reported platform, in report order, even with no kept devices |
| `Orchestration.Orchestrator.constructor` | include/tpm/orchestrator.hpp:34 | a new orchestrator has no platforms |
| `Orchestration.Orchestrator.RecordAll` | src/orchestrator.cpp:23-47 | the platform loop appends exactly the summaries |
| `Orchestration.Orchestrator.PushBack` | src/orchestrator.cpp:18-48 | an invalid host is ignored; a valid one is asked for info() and each of its platforms is appended; a consistent host keeps every recorded platform ready for initialize() |
| `Orchestration.PushBackKeepsReady` | src/orchestrator.cpp:18-48 | push_back of a consistent host keeps every recorded platform's kept devices registered with its host, and the hosts consistent |
| `Orchestration.ReportedDevicesKnown` | src/orchestrator.cpp:53-58 | every uuid the orchestrator later passes to initialize() was registered by info() |
| `Orchestration.AnyInitializesIff` | src/orchestrator.cpp:50-61 | the OR over platforms is true iff some platform's host initializes |
| `Orchestration.InitUpToUnused` | src/orchestrator.cpp:53-59 | a host behind none of the first k platforms is untouched by them |
| `Orchestration.Orchestrator.InitializeEntry` | src/orchestrator.cpp:53-59 | one iteration calls initialize() on that platform's host with its kept uuids, and its result is true iff the host is a HostImpl and the list is non-empty |
| `Orchestration.Orchestrator.Initialize` | src/orchestrator.cpp:50-61 | every platform is initialised, with no short-circuit, and the response is the OR |
| `Orchestration.AnyBuildsIff` | src/orchestrator.cpp:63-69 | the OR over platforms is true iff some platform's build succeeds |
| `Orchestration.CompileSingle` | src/orchestrator.cpp:66 | compile({uuid}) succeeds iff that platform's context builds |
| `Orchestration.CompileSingleGuarded` | src/orchestrator.cpp:66 | the guarded compile({uuid}) succeeds iff that platform has a context and it builds |
| `Orchestration.UnusablePlatformHasNoContext` | src/host.cpp:169-172 | after info() of a platform whose devices are all unusable and initialize() of the empty kept list, the platform has no context, so the source's compile of it is undefined |
| `Orchestration.CompileUpToConsistent` | src/orchestrator.cpp:63-69 | compiling on the first k platforms keeps each host's invariant |
| `Orchestration.Orchestrator.CompileEntry` | src/orchestrator.cpp:65-67 | one iteration compiles on that platform alone and reports its build |
| `Orchestration.Orchestrator.Compile` | src/orchestrator.cpp:63-69 | every platform is compiled, and the response is the OR |
| `Orchestration.Orchestrator.CompileEntryGuarded` | src/orchestrator.cpp:65-67 | one guarded iteration compiles on that platform alone and reports whether it has a context that builds |
| `Orchestration.Orchestrator.CompileGuarded` | src/orchestrator.cpp:63-69 | with the guarded compile, every platform is compiled with no requirement on the hosts, and the response is the OR |
| `Spline.Spline.constructor` | include/tpm/spline.hpp:15-17 | a new spline has exactly one keyframe, (0, v) |
| `Spline.UpperBound` | include/tpm/spline.hpp:23-24 | upper_bound is the first keyframe greater than the pair |
| `Spline.LowerBound` | include/tpm/spline.hpp:33-34 | lower_bound is the first keyframe not less than the pair |
| `Spline.InsertAt` | include/tpm/spline.hpp:28 | vector insert puts x at i and shifts the rest up by one |
| `Spline.InsertAtMultiset` | include/tpm/spline.hpp:28 | vector insert adds x and nothing else |
| `Spline.InsertedSorted` | include/tpm/spline.hpp:22-30 | insert keeps the keyframes in (time, value) order and stores (t, v) |
| `Spline.InsertedShape` | include/tpm/spline.hpp:23-29 | if the upper_bound slot has time t only its value changes; otherwise (t, v) is added and every other keyframe is kept |
| `Spline.Spline.Insert` | include/tpm/spline.hpp:22-30 | the method's new keyframes are Inserted of the old ones |
| `Spline.InsertDuplicatesTime` | include/tpm/spline.hpp:23-29 | inserting (0, 1) into [(0, 0)] gives two keyframes at time 0 |
| `Spline.InsertDuplicatesTimeWhenNotGreater` | include/tpm/spline.hpp:23-29 | whenever the stored values at time t are all at most v, insert leaves two keyframes at time t |
| `Spline.TimeBound` | include/tpm/spline.hpp:23-24 | the corrected search finds the first keyframe whose time is not below t |
| `Spline.InsertedByTimeStrict` | include/tpm/spline.hpp:22-30 | the corrected insert keeps times strictly increasing and holds (t, v) as the only keyframe at time t |
| `Spline.InsertedByTimeOthers` | include/tpm/spline.hpp:25-29 | the corrected insert keeps every keyframe at another time, and adds none |
| `Spline.Spline.InsertByTime` | include/tpm/spline.hpp:22-30 | the corrected method's new keyframes are InsertedByTime of the old ones |
| `Spline.HermiteEnds` | include/tpm/spline.hpp:58-62 | the Hermite blend is p1's value at u = 0 and p2's at u = 1 |
| `Spline.At` | include/tpm/spline.hpp:32-63 | operator[]: lower_bound on (t, 0), the first keyframe's value before it, and a Hermite blend between neighbours otherwise (AtBeforeFirst, AtFinite, AtKeyframe) |
| `Spline.AtBeforeFirst` | include/tpm/spline.hpp:33-36 | a time before the first keyframe yields the first keyframe's value |
| `Spline.AtFinite` | include/tpm/spline.hpp:32-63 | with strictly increasing times every lookup in range is a finite value (no division by zero) |
| `Spline.AtKeyframeFound` | include/tpm/spline.hpp:33-42 | at a keyframe's own time with a non-negative value, lower_bound finds it and its value is returned |
| `Spline.AtKeyframeBlended` | include/tpm/spline.hpp:33-62 | at a keyframe's time with a negative value, lower_bound passes it and the blend at u = 0 still returns its value |
| `Spline.AtKeyframe` | include/tpm/spline.hpp:32-63 | the lookup at a keyframe's own time returns its stored value, given strictly increasing times (for a negative value, when the next keyframe lies beyond the tolerance) |
| `Linalg.FloorDivIsDiv` | include/tpm/linalg.hpp:33-36 | floor(n, d) is integer division |
| `Linalg.CeilDivIsCeil` | include/tpm/linalg.hpp:37-49 | ceil(n, d) is n / d rounded up |
| `Linalg.HalvesSum` | include/tpm/linalg.hpp:67-70 | floor(n, 2) + ceil(n, 2) = n, with floor(n, 2) = n / 2 |
| `Linalg.Max3` | include/tpm/linalg.hpp:59 | max({N, M, P}) is one of the three and at least each |
| `Linalg.RightSlotAsWrittenCollides` | include/tpm/linalg.hpp:75-78 | as written, with width 7 cell 6 (row 0) and cell 10 (row 1, column 3) land in the same slot 3 of the right half |
| `Linalg.SlotInside` | include/tpm/linalg.hpp:74-78 | the corrected slots lie inside their half |
| `Linalg.SlotInjective` | include/tpm/linalg.hpp:74-78 | the corrected slots of distinct cells differ |
| `Linalg.SplitColumns` | include/tpm/linalg.hpp:74-92 | the corrected split places every cell of the table in its half |
| `Linalg.SplitResult` | include/tpm/linalg.hpp:74-92 | in the corrected split, the left half holds columns 0 .. w/2-1 and the right half the rest, each row by row |
| `Linalg.PointerTable` | include/tpm/linalg.hpp:112-117 | the pointer tables address elements 0 .. k-1 in order |
| `Linalg.MulPtrLoops` | include/tpm/linalg.hpp:59-66 | the small-case loops add a[i][k] * b[k][j] into every addressed result cell and touch no other cell |
| `Linalg.CombineRows` | include/tpm/linalg.hpp:67-70 | accumulating the top rows and then the bottom rows accumulates the whole product |
| `Linalg.CombineCols` | include/tpm/linalg.hpp:71-85 | accumulating the left and the right columns accumulates the whole product |
| `Linalg.CombineInner` | include/tpm/linalg.hpp:86-94 | accumulating the first and second halves of the inner sum accumulates the whole product |
| `Linalg.MulPtrRows` | include/tpm/linalg.hpp:67-70 | the row split accumulates the product |
| `Linalg.MulPtrCols` | include/tpm/linalg.hpp:71-85 | the column split, with the corrected stride, accumulates the product |
| `Linalg.MulPtrInner` | include/tpm/linalg.hpp:86-94 | the inner split, with the corrected stride, accumulates the product |
| `Linalg.MulPtr` | include/tpm/linalg.hpp:51-96 | with the corrected split, multiply_ptr adds the product into every addressed result cell and leaves the others alone |
| `Linalg.AccumulatedProduct` | include/tpm/linalg.hpp:110-118 | with the corrected split, through identity pointer tables, the accumulation is old c plus the product |
| `Linalg.Product` | include/tpm/linalg.hpp:97-120 | the N x P row-major product of an N x M and an M x P table (ProductAt gives each cell) |
| `Linalg.ProductAt` | include/tpm/linalg.hpp:98-108 | cell (i, j) of the product is the sum over k of a[i][k] * b[k][j] |
| `Linalg.EntrySum` | include/tpm/linalg.hpp:102-106 | the inner loop computes cell (i, j) of the product |
| `Linalg.MultiplyLoops` | include/tpm/linalg.hpp:99-108 | the naive loops store the product |
| `Linalg.MultiplyArrays` | include/tpm/linalg.hpp:97-120 | with the corrected split, multiply stores the product below the threshold, adds it to c above it, and throws (changing nothing) exactly for a zero dimension above it |
| `Linalg.TransposedAt` | include/tpm/linalg.hpp:281-287 | the transpose's entry (j, i) is the original's (i, j) |
| `Linalg.TransposeInvolution` | include/tpm/linalg.hpp:281-287 | transposing twice gives back the original |
| `Linalg.MinusUndoesPlus` | include/tpm/linalg.hpp:321-339 | subtracting w after adding w gives back v |
| `Linalg.MinusIsPlusNegated` | include/tpm/linalg.hpp:314-339 | v - w is v + (-w), and negation is its own inverse |
| `Linalg.TruncDivBounds` | include/tpm/linalg.hpp:363-368 | integer division truncates toward zero: the remainder has the dividend's sign and is smaller than the divisor in magnitude |
| `Linalg.TruncDivOfMultiple` | include/tpm/linalg.hpp:363-368 | dividing y * d by d gives y |
| `Linalg.QuotientUndoesScaled` | include/tpm/linalg.hpp:352-368 | dividing by s after scaling by s gives back the matrix |
| `Linalg.LexFlip` | include/tpm/linalg.hpp:297-307 | swapping the operands reverses the ordering |
| `Linalg.LexEquivalent` | include/tpm/linalg.hpp:297-307 | the ordering is equivalent iff the vectors are equal |
| `Linalg.LexLess` | include/tpm/linalg.hpp:297-307 | after an equal prefix, the first differing entry decides, or else the rest does |
| `Linalg.StrideFilledIsDiagonal` | include/tpm/linalg.hpp:272-275 | when N <= M + 1, stepping by M + 1 writes exactly the diagonal |
| `Linalg.StrideLeavesDiagonal` | include/tpm/linalg.hpp:272-275 | for a 3x1 matrix, stepping by 2 also writes cell (2, 0), which is off the diagonal |
| `Linalg.Matrix.Zero` | include/tpm/linalg.hpp:241-244 | the default matrix is all zero |
| `Linalg.Matrix.Scalar` | include/tpm/linalg.hpp:245-248 | the scalar constructor puts s at every (M + 1)-th flat index, the cells diagonal() writes; when N <= M + 1 these are exactly the diagonal cells |
| `Linalg.Matrix.Copy` | include/tpm/linalg.hpp:249-252 | the copy has the other's dimensions and entries |
| `Linalg.Matrix.FromValues` | include/tpm/linalg.hpp:253-256 | the array constructor takes its entries in order |
| `Linalg.Matrix.FromArgs` | include/tpm/linalg.hpp:257-262 | the variadic constructor stores the arguments in order and zeroes the rest |
| `Linalg.Matrix.Identity` | include/tpm/linalg.hpp:264-268 | Identity(s) is zero except for s at every (M + 1)-th flat index; when N <= M + 1 that is s on exactly the diagonal and 0 elsewhere |
| `Linalg.Matrix.Diagonal` | include/tpm/linalg.hpp:272-275 | as written, diagonal(s) writes s at every multiple of M + 1 and leaves the rest |
| `Linalg.Matrix.SetDiagonal` | include/tpm/linalg.hpp:272-275 | the corrected diagonal(s) writes s on exactly the diagonal cells |
| `Linalg.Matrix.Fill` | include/tpm/linalg.hpp:276-279 | fill(s) sets every entry to s |
| `Linalg.Matrix.Transpose` | include/tpm/linalg.hpp:281-287 | the result is M x N and holds the transpose |
| `Linalg.Matrix.Compare` | include/tpm/linalg.hpp:297-307 | the early-return loop computes the lexicographic ordering of the column vectors |
| `Linalg.Matrix.Assign` | include/tpm/linalg.hpp:309-313 | after assignment the receiver holds the other's entries (self-assignment included) |
| `Linalg.Matrix.Negate` | include/tpm/linalg.hpp:314-319 | unary minus negates every entry into a new matrix |
| `Linalg.Matrix.Add` | include/tpm/linalg.hpp:321-327 | + adds element-wise into a new matrix |
| `Linalg.Matrix.AddAssign` | include/tpm/linalg.hpp:328-332 | += leaves the receiver equal to the old receiver + rhs, also when rhs is the receiver |
| `Linalg.Matrix.Sub` | include/tpm/linalg.hpp:334-339 | - subtracts element-wise into a new matrix |
| `Linalg.Matrix.SubAssign` | include/tpm/linalg.hpp:340-344 | -= leaves the receiver equal to the old receiver - rhs, also when rhs is the receiver |
| `Linalg.Matrix.Multiply` | include/tpm/linalg.hpp:345-350 | with the corrected split, the product is N x P and equals the mathematical product, unless a zero dimension above the threshold throws |
| `Linalg.Matrix.Scale` | include/tpm/linalg.hpp:352-357 | scalar * multiplies every entry into a new matrix |
| `Linalg.Matrix.ScaleAssign` | include/tpm/linalg.hpp:358-362 | *= scales the receiver in place |
| `Linalg.Matrix.Divide` | include/tpm/linalg.hpp:363-368 | / divides every entry, truncating, into a new matrix |
| `Linalg.Matrix.DivideAssign` | include/tpm/linalg.hpp:369-373 | /= divides the receiver in place |
| `Linalg.ScaleLeft` | include/tpm/linalg.hpp:772-778 | s * m has the same entries as m * s |
| `Log.StandardSink` | src/log.h:72-83 | the stdout/stderr sinks pass every level, use the default format, and choose colour |
| `Log.LevelColor` | src/log.c:63-64 | every level colour starts with the escape character, as an SGR sequence (ECMA-48 section 8.3.117) does |
| `Log.LowerName` | src/log.c:59-60 | lower-case level names are padded to 8 characters |
| `Log.UpperName` | src/log.c:61-62 | upper-case level names are padded to 8 characters |
| `Log.Digits` | src/log.c:195-210 | the line number prints as decimal digits |
| `Log.DigitsRoundTrip` | src/log.c:195-210 | reading the printed digits back gives the number |
| `Log.DecimalRoundTrip` | src/log.c:195-210 | reading a printed signed line number back gives the number |
| `Log.Payload` | src/log.c:24-25 | the payload is the message cut to at most 255 characters, unchanged when shorter |
| `Log.Stamp` | src/log.c:83-112 | a time field only appends to the buffer |
| `Log.RunGrows` | src/log.c:76-231 | interpreting the format only appends to the buffer |
| `Log.Step` | src/log.c:77-232 | one character of the format: copied outside a directive, or a directive's expansion after '%' (LiteralText, UnknownDirective, PercentPrintsTime) |
| `Log.Switch` | src/log.c:77-232 | one pass of the switch computes Step, fall-through included |
| `Log.Interpret` | src/log.c:72-234 | the character loop, stopped once idx reaches 512, computes Render |
| `Log.Print` | src/log.c:69-236 | the rendering of the given format, or of the default format for NULL (LogPrint, DefaultLayout) |
| `Log.LogPrint` | src/log.c:69-236 | log_print renders the given format, or the default one for NULL |
| `Log.LiteralText` | src/log.c:83-231 | outside a directive, every character is copied as is |
| `Log.UnknownDirective` | src/log.c:230-231 | an unknown character after '%' is copied, and the '%' stays pending |
| `Log.UnknownDirectiveShiftsNext` | src/log.c:78-231 | "%x%v" prints x, then the time, then v |
| `Log.RunAppend` | src/log.c:76-231 | interpreting f + g is interpreting f and then g |
| `Log.DefaultLayout` | src/log.c:58-71 | the default format prints "[date time] LEVEL file:line: payload" |
| `Log.UncoloredHasNoEscape` | src/log.c:69-236 | without colour, no escape character is added |
| `Log.PayloadsOverrun` | src/log.c:76-234 | three 255-character payloads take idx past 512 |
| `Log.PercentPrintsTime` | src/log.c:78-97 | as written, "%%" prints the time and not "%" |
| `Log.Escaped` | src/log.c:54 | escaping never shortens a text |
| `Log.EscapedPrintsItself` | src/log.c:54 | with '%%' read as '%', an escaped text prints as itself |
| `Log.PercentIntended` | src/log.c:54 | with '%%' read as '%', "%%" prints "%" |
| `Log.Receivers` | src/log.c:32-35 | every receiver index names a registered sink |
| `Log.ReceiversExact` | src/log.c:32-35 | a sink receives iff its level is at most the event's, in registration order |
| `Log.Dispatch` | src/log.c:32-35 | one emission per receiving sink, in order, each printed with that sink's format and colour |
| `Log.MakeEvent` | src/log.c:22-30 | the event keeps the level and carries the truncated payload |
| `Log.Logger.constructor` | src/log.c:12-13 | a new registry has no sinks |
| `Log.Logger.AddSink` | src/log.c:15-20 | when 8 sinks are registered, nothing changes and false is returned; otherwise the sink is appended and true is returned |
| `Log.Logger.Vlog` | src/log.c:22-36 | the emissions are exactly Dispatch of the registered sinks on the new event |

## Left out

- Floating point: `float` is modelled as exact `real`, and `sqrt`/`length` as a parameter. Rounding, NaN propagation in the SDFs and the 10-epsilon tolerance's exact float value are not captured.
- Render.Random: the float output 2.3283064365387e-10 * xor is left out; the draw is the raw 32-bit xor.
- GPU, SYCL and OpenCL plumbing (src/render.c, src/gpu.cpp, src/render.cpp, src/main.cpp): these are foreign APIs and concurrency. Context, queue and program objects are only uuids in the model, and construction exceptions are not modelled.
- `eval_sdf`, `ray_march`, `render_pixel` and `render_frame` are only declared in src/render.hpp; their SYCL definitions are not part of this model.
- Image encoding and I/O (`write`, `write_buffer`, `convert_buffer`, src/image.c): file output through stb.
- ImageStore.Image.GetTiles: the header declares begin/end parameters, but the definition at src/image.cpp:120 has none; the definition is modelled.
- ImageStore.Tile.Set: float vectors are `seq<real>` values reassigned in place of element writes.
- SceneParse: the XML input is an abstract tree whose attributes are already numbers and whose colour is already decoded. `parse_hex` (`sscanf`) and `parse_spec` (file loading and the image/renderer settings) are not part of this model.
- SceneParse.TpmSpec.ParseTranslate: a translate without children is accepted and its `a` becomes the sentinel. The missing child read through `*node.begin()` is pugixml's empty node, which `parse_sdf` does not know; that is the release-build behaviour, and a debug build of pugixml asserts instead.
- SceneParse.TpmSpec.ParseUnion: a union needs only its first child. A missing second child is read as pugixml's empty node (release build; a debug build asserts), so `b` becomes the sentinel. A union with no children is excluded, because `++node.begin()` then steps past `end()`.
- Host: the order in which `initialize` visits groups is modelled as the order in which platforms first appear among the requested devices. The source iterates an `unordered_map`, whose order is unspecified.
- Host.HostImpl.Initialize: it requires every requested uuid to be registered. The source's `devices[id]` would default-insert an unknown id.
- Host.HostImpl.Compile: it requires every listed platform to have a context. The source dereferences `contexts.find` unchecked. `Host.HostImpl.CompileGuarded` is the compile() that skips such a platform.
- Orchestration.Orchestrator.Compile: as written, it requires every recorded platform's host to hold a context for it. A platform whose devices are all unusable is recorded but gets none (see Findings), and `Orchestration.Orchestrator.CompileGuarded` has no such requirement.
- Host.HostImpl.AddQueuesLoop: its loop updates a local copy of the maps that is written back after the loop, not the fields one element at a time.
- Host.HostImpl.RegisterOne: its loop updates a local copy of the maps that is written back after the loop, not the fields one element at a time.
- Host: random uuids come from a counter; name-based uuids are `Named(name)`, not RFC 4122 hashes.
- Logging calls (`LTRACE`, `LWARN`, `LERR`, `LDEBUG`) inside host.cpp and orchestrator.cpp are output only.
- The orchestrator's memory pretty-print (log, pow, byte suffix) is left out.
- Orchestration.Record: `ops` is stated only to be below 2^32; the exact wrapped product is in the body.
- Spline: the value type is a single real, not a template `T`. `begin()`/`end()` call members that `std::vector` lacks, and the stream `operator<<` is declared but its definition is commented out.
- Spline.AtKeyframe: it requires strictly increasing times. A negative value sorts below (t, 0), so lower_bound passes its keyframe: the last keyframe must then be non-negative, and the next one must lie beyond the tolerance for the blend to be taken.
- Spline.At: lookup past the last keyframe dereferences `end()` in the source, so it requires the time to be in range.
- Linalg: entries are `int` and dimensions are run-time fields. `inverse_impl`, `determinant`, the OpenCL vector conversions and the `fmt` formatter are not part of this model.
- Linalg.Matrix.ScaleAssign: `operator*=` returns `&this`, which does not compile when instantiated; the method only updates the receiver.
- Linalg.Matrix.DivideAssign: `operator/=` returns `&this`, which does not compile when instantiated; the method only updates the receiver.
- Linalg.Matrix.Scalar: the cells off the (M + 1)-stride are left uninitialised by the source, so the contract says nothing about them. For N > M + 1 the stride cells that get s include off-diagonal ones, as in `diagonal()`.
- Linalg.Matrix.FromArgs: the variadic arguments arrive as a sequence of at least two values and at most N*M.
- Linalg.FloorDivIsDiv: it is exact integer division, while the source divides in `float`, which is exact only for small sizes.
- Linalg.CeilDivIsCeil: it is exact integer division, while the source divides in `float`, which is exact only for small sizes.
- Linalg.MulPtr: the pointer tables into const inputs are modelled as index tables into sequences. Also, for an odd P (or M) and at least two rows, the source addresses the right half with row stride P/2 (M/2) instead of its width, so some slots collide and others are never written (include/tpm/linalg.hpp:71-94); the result is then not the product, and the model uses the corrected split.
- Linalg.AccumulatedProduct: for an odd P (or M) and at least two rows, the source addresses the right half with row stride P/2 (M/2) instead of its width, so some slots collide and others are never written (include/tpm/linalg.hpp:71-94); the result is then not the product, and the model uses the corrected split.
- Linalg.MultiplyArrays: above the threshold, for an odd P (or M) and at least two rows, the source addresses the right half with row stride P/2 (M/2) instead of its width, so some slots collide and others are never written (include/tpm/linalg.hpp:71-94); the result is then not the product, and the model uses the corrected split.
- Linalg.Matrix.Multiply: above the threshold, for an odd P (or M) and at least two rows, the source addresses the right half with row stride P/2 (M/2) instead of its width, so some slots collide and others are never written (include/tpm/linalg.hpp:71-94); the result is then not the product, and the model uses the corrected split.
- Log: `fprintf` to the sink's stream becomes an `Emission` value. `time`/`localtime`/`strftime` become the `Clock` strings, `stb_splitpath` is the given basename, and `vsnprintf` formatting is the given message. The buffer is a growing string.
- Log.LogPrint: a buffer that overruns 512 bytes is reported as `Overrun` without modelling the bytes written out of bounds.
- SysInfo: `/proc/stat` reading and the logger thread are I/O.

## Findings

| source | as written | input that shows it | evidently intended | confidence | as-written member | corrected member |
|---|---|---|---|---|---|---|
| src/render.hpp:43-54 | the tile end `x + ts` is computed in 32 bits before `min` | size (0xFFFFFFFF, 1, 0x80000000), tile (1, 0): x0 = 0x80000000, x1 = 0 | the end is clamped to the image width, so every tile in the grid is non-empty | not executed | `Render.TileWrapsAtTheTop` | `Render.TileInsideGridIsNonEmpty` |
| include/tpm/spline.hpp:23-29 | `upper_bound` on the pair (t, v) skips a stored (t, v') with v' <= v | insert (0, 1) into [(0, 0)]: two keyframes at time 0 | an existing keyframe at time t is overwritten | not executed | `Spline.InsertDuplicatesTime` | `Spline.InsertedByTimeStrict` |
| include/tpm/linalg.hpp:71-94 | the right/ceil half is addressed with row stride P/2 (M/2) instead of its width ceil(P/2) | width 7: cells 6 and 10 both land in slot 3 of the right half | each half is addressed with its own width | not executed | `Linalg.RightSlotAsWrittenCollides` | `Linalg.SplitResult` |
| include/tpm/linalg.hpp:272-275 | diagonal writes every multiple of M + 1 up to N*M | 3x1 matrix: cells 0 and 2 are both set | only cells (i, i) are set | not executed | `Linalg.StrideLeavesDiagonal` | `Linalg.StrideFilledIsDiagonal` |
| src/host.cpp:169-172 | compile reads `platforms[it].context` and dereferences `contexts.find` of it unchecked | one platform whose devices are all unavailable: push_back records it with no devices, initialize of the empty list creates no context, and compile of its uuid dereferences `contexts.end()` | a platform without a context is skipped like a failed build | not executed | `Orchestration.UnusablePlatformHasNoContext` | `Host.CompileGuardedResult` |
| src/log.c:78-97 | a second '%' falls into the `%t` case | format "%%" prints HH:MM:SS | "%%" prints "%", as the comment at src/log.c:54 says | not executed | `Log.PercentPrintsTime` | `Log.PercentIntended` |

The corrected halves are used as follows:

- `Render.Tile` is the corrected tile.
- `Host.HostImpl.CompileGuarded` is the corrected compile(), and `Orchestration.Orchestrator.CompileGuarded` drives it through the orchestrator without any requirement on the hosts.
- `Spline.Spline.InsertByTime` is the corrected insert.
- `Linalg.MulPtr` uses the corrected split. So does `Linalg.Matrix.Multiply`, which is therefore the true product.
- `Linalg.Matrix.Identity` and `Linalg.Matrix.Scalar` keep the stride of `diagonal()` as written. `Linalg.StrideFilledIsDiagonal` shows that it writes exactly the diagonal when N <= M + 1, and `Linalg.Matrix.SetDiagonal` is the corrected `diagonal(s)` for the other shapes.
- `Log.PrintIntended` is the corrected interpreter. `Log.LogPrint` and `Log.Logger.Vlog` keep the source's behaviour, and `Log.Escaped` is the escaping that the corrected interpreter prints back.

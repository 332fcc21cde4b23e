# WBOIT renderer and froxel visualizer, modelled in Dafny

A model of the sequential logic of a small Godot GDExtension. It has two parts.

- **`WBOITRenderer`** is a weighted blended order-independent transparency renderer (`wboit.dfy`). It is a lifecycle state machine over the Godot rendering device. It creates two render targets and two shaders, and it tears them down and rebuilds them when the viewport size changes. It has two passes:
  - the accumulation pass clears the targets, creates a temporary framebuffer, walks the objects and frees the framebuffer;
  - the composite pass creates a temporary uniform set, dispatches `(w+7)/8 x (h+7)/8 x 1` work groups and frees the set.
- **`FroxelVisualizer`** is a debug line mesh that shows the camera frustum cut into depth slices (`froxel.dfy`). Each setter stores its arguments and rebuilds the mesh:
  - one line surface holds the grid lines of every visited depth slice, then the outline of every visited slice;
  - with the grid hidden, the mesh is empty.

The rendering device is abstract (`device.dfy`). It hands out handles (RIDs), with 0 as the invalid handle, and keeps the set of live handles. It records every call it receives, so "makes no device call" and "leaks no handle" can be stated. Whether a texture, framebuffer or uniform set can be created is the device's choice, made nondeterministically: the model covers both outcomes. A missing device is a `null` device argument.

The float geometry of the visualizer is kept symbolic: `get_depth_at_slice`, `frustum_corner` and the camera transform are not evaluated. A vertex records its camera, its slice fraction `t = z / count_z`, and its corner fractions `u` and `v`. Each fraction is a `Ratio(num, den)` standing for `(float)num / (float)den`. What is proved concerns:
- the integer loop structure: which slices are visited and how many vertices each loop appends;
- the pairing of vertices into lines;
- the early exits.

`common.dfy` holds the C++ `int` arithmetic of the source:
- division truncated toward zero;
- 32-bit two's-complement wrap-around. C++ leaves a signed overflow undefined; `GroupCount` takes wrap-around, the usual compiled behaviour, for the one sum that can overflow.

The model keeps the following behaviours of the code, each of which departs from what a WBOIT renderer or a debug visualizer is usually expected to do:
- `initialize` sets the initialized flag unconditionally, even without a device or with unreadable shader files; a failed initialization does not leave the renderer uninitialized.
- `cleanup_resources` never resets the handles to invalid. A second call frees the same texture handles again.
- `create_shaders` keeps only the RIDs of two local `Shader` objects, and both objects are released when it returns. The stored shader handles therefore name no live shader, and the composite pass binds such a handle.
- A `MeshInstance3D` without a mesh is dereferenced, not skipped as a null object is.
- The depth-slice loops never terminate for `0 <= count_z < 8`, because the step `count_z / 8` is 0. A negative `count_z` terminates at once, with no slice visited.

## Model

| member | source | states |
|---|---|---|
| Common.WrapInt32 | src/main_entry.cpp:305-306 | a C++ `int` result equals the exact value when it is in range, and the value minus 2^32 just above the range |
| Common.TruncDiv | src/froxel_visualizer.cpp:126 | C++ `/` for a positive divisor: the quotient is truncated toward zero, with the remainder's sign following the dividend |
| Wboit.WboitRenderer.constructor | src/main_entry.cpp:34-36 | a new renderer is uninitialized, with size 1920x1080 and every handle invalid |
| Wboit.WboitRenderer.Initialize | src/main_entry.cpp:42-47 | the size is stored and the flag is set whatever the device and the shader files gave; no device: every handle field is unchanged; with a device: the calls are the two texture creations then those of `create_shaders`, `accumulationTexture` is invalid or the RGBA16F texture at the new size and `revealageTexture` invalid or the R16F one, the valid textures are fresh, distinct and exactly they join the live set, and with both sources non-empty each shader field holds the shader made from its own source, already released |
| Wboit.WboitRenderer.CreateRenderTargets | src/main_entry.cpp:49-87 | no device: both texture fields are unchanged; with a device: `accumulationTexture` is invalid or the RGBA16F texture at the viewport size, `revealageTexture` invalid or the R16F one, the valid ones are fresh and distinct, and the live set grows by exactly them |
| Wboit.WboitRenderer.CreateShaders | src/main_entry.cpp:101-132 | no device, or an empty shader text: the shader fields are unchanged and no shader is made; otherwise `accumulateShader` holds the shader made from the accumulation source and `compositeShader` the one made from the composite source, two distinct valid handles, and both are released on return (composite first), so the live set is unchanged and neither stored handle is live |
| Wboit.WboitRenderer.RenderTransparentObjects | src/main_entry.cpp:134-246 | uninitialized or no device: no device call and nothing drawn; otherwise the calls are the two clears (to 0 and to 1), the framebuffer creation and, when the framebuffer is valid, the draw list, submit, sync and its release; the live set is the same after the pass as before, and the handles fetched are those of the `MeshInstance3D` entries, in order |
| Wboit.WboitRenderer.DrawTransparentObjects | src/main_entry.cpp:206-238 | the object loop fetches exactly `MeshHandles(objects)` inside one draw list on the framebuffer, followed by submit and sync |
| Wboit.MeshHandles | src/main_entry.cpp:216-232 | at most one handle per entry, and a handle is fetched exactly when some `MeshInstance3D` entry carries it |
| Wboit.MeshHandlesAppend | src/main_entry.cpp:216-232 | the walk is compositional: the handles of `a + b` are those of `a` followed by those of `b` |
| Wboit.MeshHandlesSkipOthers | src/main_entry.cpp:216-220 | entries that are not `MeshInstance3D` are skipped: an array of them fetches nothing |
| Wboit.AccumulationFreesFramebuffer | src/main_entry.cpp:193-243 | with a valid framebuffer, the pass makes 8 calls, opens the draw list on that framebuffer, frees it last, and does not free it before it is created |
| Wboit.WboitRenderer.CompositeToScreen | src/main_entry.cpp:248-321 | uninitialized or no device: no device call; otherwise the renderer must be in the scene tree (its viewport is looked up unchecked), and the uniform set over the two targets is created and, when valid, the dispatch runs and the set is freed; the live set is the same after the pass as before |
| Wboit.WboitRenderer.DispatchComposite | src/main_entry.cpp:300-313 | the compute list binds the composite shader and the uniform set at index 0, and dispatches `GroupCount(w) x GroupCount(h) x 1` groups, then submit and sync |
| Wboit.GroupCount | src/main_entry.cpp:305-306 | `(extent + 7) / 8` on C++ ints is the ceiling of extent/8 (`extent <= 8g < extent + 8`) for `0 <= extent <= 2^31 - 8`; it is at most 0 for a negative extent, and negative under wrap-around once `extent + 7` overflows |
| Wboit.CompositeDispatchCovers | src/main_entry.cpp:292-318 | a successful composite pass dispatches, inside one compute list, the least group count covering each axis with a depth of 1, and frees its uniform set last |
| Wboit.WboitRenderer.SetViewportSize | src/main_entry.cpp:323-331 | afterwards the size is the argument; an unchanged size changes no field and makes no device call; a changed size while uninitialized changes only the size, every handle field keeping its value; a changed size while initialized frees the valid textures and rebuilds everything at the new size, each texture field holding the invalid handle or a fresh texture of its own format at that size (the two distinct when both are valid), and, with both sources non-empty, each shader field a valid handle to the shader made from its own source, the two distinct and both already released |
| Wboit.WboitRenderer.GetViewportSize | src/main_entry.cpp:333-335 | returns the stored size, which is the argument of the last `SetViewportSize` or `Initialize` |
| Wboit.WboitRenderer.CleanupResources | src/main_entry.cpp:351-362 | the flag is always cleared; with a device, exactly the valid texture handles are freed and the shader handles are not freed; no handle field is reset |
| Froxel.ZLoopTerminates | src/froxel_visualizer.cpp:126 | `for (z = 0; z <= count_z; z += count_z / 8)` terminates exactly when `count_z < 0` or the step is positive |
| Froxel.SlicesFromShape | src/froxel_visualizer.cpp:126 | from `z` with step `s`, the loop visits `z + i*s` for `i` in `0..(count_z - z)/s`, all at most `count_z` |
| Froxel.SliceCount | src/froxel_visualizer.cpp:126 | the slices visited are `0, s, 2s, ...` up to `count_z`: `count_z/s + 1` of them, between 9 and 16 when `count_z >= 8`, and none when `count_z < 0` |
| Froxel.FarSliceVisited | src/froxel_visualizer.cpp:126 | the far slice `count_z` is visited exactly when the step divides `count_z` |
| Froxel.Columns | src/froxel_visualizer.cpp:130-137 | line `k` of the `x` loop joins `(x/count_x, 0)` and `(x/count_x, 1)` of its slice, for `x = k` |
| Froxel.Rows | src/froxel_visualizer.cpp:139-146 | line `k` of the `y` loop joins `(0, y/count_y)` and `(1, y/count_y)` of its slice, for `y = k` |
| Froxel.GridSlice | src/froxel_visualizer.cpp:130-146 | each visited slice adds `2(count_x + 1) + 2(count_y + 1)` vertices (none from a loop whose count is negative) |
| Froxel.Grid | src/froxel_visualizer.cpp:126-147 | the first depth loop emits `|slices| * PerSlice(count_x, count_y)` vertices, that is `|slices| * (2(count_x + 1) + 2(count_y + 1))` when both counts are at least -1; a loop whose count is negative adds nothing |
| Froxel.QuadEdges | src/froxel_visualizer.cpp:159-162 | edge `i` of a slice outline is the pair (corner `i`, corner `(i + 1) mod 4`) |
| Froxel.QuadOutlineCloses | src/froxel_visualizer.cpp:152-162 | each outline is 8 vertices; each edge ends where the next starts, the last where the first starts, and the four symbolic corners are distinct terms |
| Froxel.Edges | src/froxel_visualizer.cpp:150-163 | the second depth loop emits 8 vertices per visited slice |
| Froxel.GridWithinSlices | src/froxel_visualizer.cpp:126-147 | every grid line joins two points of the same slice |
| Froxel.EdgesWithinSlices | src/froxel_visualizer.cpp:150-163 | every outline edge joins two points of the same slice |
| Froxel.EmittedShape | src/froxel_visualizer.cpp:120-165 | one update emits `|slices| * (per-slice grid + 8)` vertices, an even count, paired into lines that each stay within one slice |
| Froxel.EmittedEmpty | src/froxel_visualizer.cpp:126-162 | an update emits no vertex exactly when `count_z` is negative |
| Froxel.FroxelVisualizer.constructor | src/froxel_visualizer.h:35-44 | the defaults: no mesh, no camera, counts 16, 9 and 48, grid shown |
| Froxel.FroxelVisualizer.Ready | src/froxel_visualizer.cpp:39-42 | `_ready` gives the visualizer a fresh, empty mesh with no surface open |
| Froxel.FroxelVisualizer.SetCamera | src/froxel_visualizer.cpp:57-61 | stores the camera, then the mesh shows what an update leaves; with no camera the mesh is untouched |
| Froxel.FroxelVisualizer.SetFroxelCount | src/froxel_visualizer.cpp:63-69 | stores the three counts, then the mesh shows what an update leaves |
| Froxel.FroxelVisualizer.SetShowGrid | src/froxel_visualizer.cpp:71-75 | stores the flag, then the mesh shows what an update leaves |
| Froxel.FroxelVisualizer.UpdateVisualization | src/froxel_visualizer.cpp:106-166 | no camera or no mesh: the mesh is untouched; grid hidden: the mesh has no surface; otherwise, when some slice is visited, it has exactly one line surface holding the grid vertices then the outline vertices of every visited slice, and no surface is left open; when `count_z` is negative nothing is emitted, the mesh refuses to commit the empty surface, and it is left with no surface and an empty line surface open |
| Froxel.FroxelVisualizer.EmitGrid | src/froxel_visualizer.cpp:126-147 | the first depth loop appends exactly `Grid` over the visited slices to the open surface |
| Froxel.FroxelVisualizer.EmitSliceGrid | src/froxel_visualizer.cpp:127-146 | one iteration of the first depth loop appends the columns, then the rows, of its slice |
| Froxel.FroxelVisualizer.EmitColumns | src/froxel_visualizer.cpp:130-137 | the `x` loop appends exactly `Columns` for `0..count_x` |
| Froxel.FroxelVisualizer.EmitRows | src/froxel_visualizer.cpp:139-146 | the `y` loop appends exactly `Rows` for `0..count_y` |
| Froxel.FroxelVisualizer.EmitOutlines | src/froxel_visualizer.cpp:150-163 | the second depth loop appends exactly `Edges` over the visited slices |
| Froxel.FroxelVisualizer.EmitQuad | src/froxel_visualizer.cpp:159-162 | the `i` loop appends the four outline edges of one slice |

## Left out

- `Sprite2D_Jiggle` is float animation with nothing to state.
- `load_shader_file` is file I/O. Its result, the text of each shader or "" when the file cannot be opened, is the `ShaderSources` parameter.
- Texture, attachment and uniform format details are left out beyond the data format and size of each texture and the binding slots of the uniforms. The unused clear buffers (`PackedFloat32Array`) are also left out.
- The draw, compute, submit and sync calls are opaque logged calls that change no handle. The blending weights and the resolve formula live in shaders and in draw calls that are commented out in the source.
- `create_shaders` builds engine `Shader` resources, which live in the rendering server rather than on the rendering device. The model issues and releases their RIDs on the one abstract device. The release at the end of `create_shaders` stands for the last reference to each local `Ref<Shader>` being dropped.
- `get_accumulation_shader` and `get_composite_shader` return fresh, empty engine objects and touch no state.
- The `WBOITRenderer` destructor is not modelled. It only calls `cleanup_resources`.
- The rendering device comes from a global singleton in the source. In the model it is a parameter, and a `null` argument stands for "RenderingDevice not available".
- The following engine glue is not modelled: `_bind_methods`, `_notification`, `_process`, and the material setup in `_ready`.
- `get_depth_at_slice` (`pow`) and `frustum_corner` (`tan`, aspect ratio) are floating-point geometry, as is the camera transform. A vertex records their arguments symbolically.
- The Godot `ImmediateMesh` is modelled from its documented behaviour. `clear_surfaces` drops everything, including a surface being built. A vertex added, or a surface ended, with no surface open is ignored, and ending a surface with no vertex is refused. The engine's other checks on surfaces are not modelled.
- The `ERR_PRINT` and `UtilityFunctions::print` diagnostics are console output with no effect on state, and they are not modelled.
- Concurrency is not modelled: the code is single-threaded and synchronous.
- Wboit.WboitRenderer.RenderTransparentObjects: requires every `MeshInstance3D` entry to have a mesh, because the source dereferences a null mesh without checking it, and that is a crash, not an outcome.
- Wboit.WboitRenderer.CompositeToScreen: requires the renderer to be in the scene tree once past its guards (`inTree`), because the source dereferences `get_viewport()` without checking it. The render-target lookup it feeds is otherwise unused and is not modelled.
- Wboit.GroupCount: for `extent > 2^31 - 8` the C++ sum `extent + 7` overflows, which is undefined behaviour; the model takes two's-complement wrap-around.
- Froxel.FroxelVisualizer.UpdateVisualization: requires `count_z < 0` or `count_z >= 8` on the path that draws, because for `0 <= count_z < 8` the depth loops never terminate. The same precondition is carried by the setters that call it.
- Froxel.FroxelVisualizer.UpdateVisualization: the loop counters and counts are unbounded integers. The C++ `int` overflow of `z += step`, `x++` or `y++` for counts near 2^31 is undefined behaviour in the source and is not modelled.

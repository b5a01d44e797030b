# sigma-core, modelled in Dafny

This project models the discrete core of the sigma engine and proves properties of it. That core is:

- the bookkeeping of the OpenGL deferred renderer;
- the buddy block allocator;
- integer 4×4 matrices;
- the geometry buffer of the `sopengl` backend;
- the component-system registry;
- the material container;
- resource identifiers.

One Dafny module stands for one source file. The renderer is split over several modules.

- **Renderer** (`renderer.dfy`, `cascades.dfy`, `render_tokens.dfy`, `token_sort.dfy`, with shared opaque value types in `scene.dfy`).
  - The class `Renderer` keeps the renderer's own state:
    - the two accumulation-image indices;
    - the cascade frusta;
    - the two token streams.
  - Every GL call that matters is recorded as an `Event` appended to a `trace`.
  - Each pass method is proved to append exactly the events of a specification function, such as `GeometryPassEvents` or `RenderEvents`. Lemmas about those functions then state what a frame does:
    - which accumulation image is drawn into and which is sampled, in which order;
    - one draw per token, in stream order;
    - a batch bind before every draw.
  - The token collector and the sort are modelled as functions with a `method` wrapper. Their lemmas cover:
    - culling;
    - prefix preservation;
    - the global-technique case;
    - slot order;
    - the comparator being a strict weak order;
    - sortedness and permutation.
- **Buddy** (`buddy.dfy`). `BuddyArrayAllocator` keeps the byte array of node flags. `allocate_` is a recursive method writing the flags in place. It is proved equal to the function `Alloc`. Lemmas about `Alloc` show:
  - first fit, meaning the lowest free fitting offset;
  - alignment and bounds of the result;
  - preservation of the tree invariant;
  - flags never being cleared;
  - that successive allocations are pairwise disjoint. The class keeps the history of allocations as a ghost field and proves this in its invariant.
- **Mat4** (`mat4.dfy`). Row-major `int` matrices are a datatype with the value operators. The class `Int4x4` models the in-place compound assignments and `transpose()`. `getTranspose` keeps its double loop.
- **GeometryBuffer** (`geometry_buffer.dfy`). This is the attachment table, the draw-buffer list, the bound texture units and the two image indices. The invariant is that the attached output image is always `images_[output_image_]` and differs from the input image.
- **ComponentSystems** (`component_systems.dfy`). This is the map from class identifiers to owned systems: add overwrites, get returns null when absent, and remove is a no-op when absent.
- **Materials** (`material.dfy`). This is the shader map, built in insertion order where the last entry wins, and the ordered texture list. `shader()` inserts an empty handle through `operator[]`. `set_texture` replaces a handle in place.
- **Identifiers** (`identifier.dfy`). Identifiers compare by hash value. A development name is built as `type + "://" + path`, with every backslash turned into a slash and an optional `:sub_name` suffix. The printed forms are injective.

The hash function, boost's path operations, the frustum test and the cache look-ups are passed in as functions (`Env`, `Lookups`, `SplitFormula`). Floating-point data (glm matrices, positions, frustum planes) is an opaque type that is only compared for equality.

## Model

| member | source | states |
|---|---|---|
| Buddy.SetUsed | include/sigma/buddy_array_allocator.hpp:4-5 | SET_USED turns the used bit on and keeps the split bit |
| Buddy.SetSplit | include/sigma/buddy_array_allocator.hpp:7-8 | SET_SPLIT turns the split bit on and keeps the used bit |
| Buddy.Order | include/sigma/buddy_array_allocator.hpp:28-31 | `order(blocks)` is an exponent k with 2^k >= blocks and 2^(k-1) < blocks (ceil-log2) |
| Buddy.OrderIsLeast | include/sigma/buddy_array_allocator.hpp:28-31 | no smaller exponent covers `blocks`: the order is the least k with 2^k >= blocks |
| Buddy.TakenSize | include/sigma/buddy_array_allocator.hpp:47-52 | a power-of-two node taken whole (size/2 < blocks <= size) has exactly 2^order(blocks) blocks |
| Buddy.Alloc | include/sigma/buddy_array_allocator.hpp:39-65 | `allocate_` as a function of the node array; the array keeps its length |
| Buddy.AllocFrame | include/sigma/buddy_array_allocator.hpp:39-65 | a search writes only bytes in the subtree of the node it starts at |
| Buddy.AllocMonotone | include/sigma/buddy_array_allocator.hpp:47-61 | used and split bits are only ever set, never cleared, even when the search fails |
| Buddy.AllocFirstFit | include/sigma/buddy_array_allocator.hpp:39-65 | the search fails exactly when no node can take the request, and otherwise returns the lowest offset of all nodes that can |
| Buddy.LeftFirstFit | include/sigma/buddy_array_allocator.hpp:53-58 | after the node is marked split, the left child's search finds the left child's first fit |
| Buddy.RightFirstFit | include/sigma/buddy_array_allocator.hpp:59-61 | the right child's search, on the array the left search left, finds the right child's first fit as it was before |
| Buddy.AllocCovers | include/sigma/buddy_array_allocator.hpp:39-65 | the tree invariant is preserved; a success hands out exactly the 2^order(blocks) blocks at the returned offset, none handed out before; a failure hands out nothing |
| Buddy.DescendCovers | include/sigma/buddy_array_allocator.hpp:53-61 | the descending branch (mark split, left then right) keeps the invariant and hands out exactly the blocks at its result |
| Buddy.AllocAligned | include/sigma/buddy_array_allocator.hpp:39-65 | a successful offset is a multiple of 2^order(blocks), the size of the node taken |
| Buddy.ZeroIsClean | include/sigma/buddy_array_allocator.hpp:22-26 | an all-zero node array has nothing used or split anywhere in the tree |
| Buddy.BuddyArrayAllocator.constructor | include/sigma/buddy_array_allocator.hpp:22-26 | `2*block_count - 1` nodes, all zero; the invariant holds and nothing is handed out |
| Buddy.BuddyArrayAllocator.Allocate | include/sigma/buddy_array_allocator.hpp:33-36 | the search from the root over `block_count` blocks. Too large a request or a used root gives the sentinel and no change. A success returns r with r + 2^order(blocks) <= block_count, r a multiple of that size, and the new range disjoint from every earlier one |
| Buddy.BuddyArrayAllocator.AllocateAt | include/sigma/buddy_array_allocator.hpp:39-65 | the recursive in-place search leaves the array and result that `Alloc` computes |
| Mat4.Mat4.Set | include/math/mat4.hpp:65-71 | one entry replaced, the other fifteen kept |
| Mat4.EntriesDetermine | include/math/mat4.hpp:23-28 | matrices with the same sixteen entries are equal |
| Mat4.Identity | include/math/mat4.hpp:9-14 | ones on the diagonal, zeros elsewhere |
| Mat4.Eq | include/math/mat4.hpp:23-28 | row-wise `==` holds exactly when the matrices are equal |
| Mat4.Neq | include/math/mat4.hpp:30-35 | `!=` is the negation of `==`, i.e. the matrices differ |
| Mat4.Add | include/math/mat4.hpp:73-78 | entry (i, j) of the sum is the sum of the entries (i, j) |
| Mat4.Sub | include/math/mat4.hpp:80-85 | entry (i, j) of the difference is the difference of the entries |
| Mat4.Neg | include/math/mat4.hpp:87-92 | every entry negated |
| Mat4.GetColumn | include/math/mat4.hpp:167-169 | component i of column c is entry (i, c) |
| Mat4.Mul | include/math/mat4.hpp:94-103 | entry (i, j) is row i of the left factor dotted with column j of the right |
| Mat4.MulVec | include/math/mat4.hpp:105-107 | component i is row i dotted with the vector |
| Mat4.Scale | include/math/mat4.hpp:109-114 | every entry multiplied by the scalar |
| Mat4.Transpose | include/math/mat4.hpp:188-195 | entry (j, i) of the transpose is entry (i, j) |
| Mat4.Det | include/math/mat4.hpp:179-186 | the 24-term expansion of `det()`; a zero first or last row, or equal first two rows, gives 0 |
| Mat4.DetIdentity | include/math/mat4.hpp:179-186 | the identity's determinant is 1 |
| Mat4.DetDiagonal | include/math/mat4.hpp:179-186 | a diagonal matrix's determinant is the product of its diagonal |
| Mat4.DetTranspose | include/math/mat4.hpp:179-186 | a matrix and its transpose have the same determinant |
| Mat4.DetSwapRows | include/math/mat4.hpp:179-186 | exchanging the first two rows negates the determinant |
| Mat4.TransposeTwice | include/math/mat4.hpp:188-195 | transposing twice gives the original |
| Mat4.ColumnIsTransposedRow | include/math/mat4.hpp:167-169 | column c is row c of the transpose |
| Mat4.MulIdentityRight | include/math/mat4.hpp:94-103 | m * I == m |
| Mat4.MulIdentityLeft | include/math/mat4.hpp:94-103 | I * m == m |
| Mat4.MulVecIdentity | include/math/mat4.hpp:105-107 | I * v == v |
| Mat4.ScaleOne | include/math/mat4.hpp:109-114 | m * 1 == m |
| Mat4.AddSubCancel | include/math/mat4.hpp:73-85 | (a + b) - b == a over unbounded integers |
| Mat4.AddCommutes | include/math/mat4.hpp:73-78 | a + b == b + a |
| Mat4.NegIsZeroMinus | include/math/mat4.hpp:80-92 | -a == 0 - a |
| Mat4.Int4x4.constructor | include/math/mat4.hpp:9-14 | the default matrix is the identity |
| Mat4.Int4x4.FromRows | include/math/mat4.hpp:16-21 | the four rows as given |
| Mat4.Int4x4.AddAssign | include/math/mat4.hpp:123-129 | `+=` leaves the old value plus the old value of `other` (which may be the same object) |
| Mat4.Int4x4.SubAssign | include/math/mat4.hpp:131-137 | `-=` leaves the old value minus the old value of `other` |
| Mat4.Int4x4.MulAssign | include/math/mat4.hpp:139-149 | `*=` leaves the product of the old values, `other`'s columns taken before any row is overwritten |
| Mat4.Int4x4.ScaleAssign | include/math/mat4.hpp:151-157 | `*=` by a scalar scales the old value |
| Mat4.Int4x4.GetTranspose | include/math/mat4.hpp:188-195 | the double loop yields the matrix with entry (j, i) equal to entry (i, j) |
| Mat4.Int4x4.TransposeInPlace | include/math/mat4.hpp:217-220 | the matrix is replaced by its transpose |
| GeometryBuffer.GBuffer.constructor | backends/graphics/sopengl/src/sigma/opengl/geometry_buffer.cpp:7-23 | input 0, output 1, the five attachments with `images_[1]` as output image, the three geometry draw buffers |
| GeometryBuffer.GBuffer.Attach | backends/graphics/sopengl/src/sigma/opengl/geometry_buffer.cpp:17-21 | the attachment point now holds the texture; nothing else changes |
| GeometryBuffer.GBuffer.BindForGeometryPass | backends/graphics/sopengl/src/sigma/opengl/geometry_buffer.cpp:25-28 | draw buffers are position, diffuse, normal; the invariant is kept |
| GeometryBuffer.GBuffer.BindForStencilPass | backends/graphics/sopengl/src/sigma/opengl/geometry_buffer.cpp:30-33 | draw buffer NONE, so no texture is drawn into |
| GeometryBuffer.GBuffer.BindForEffectPass | backends/graphics/sopengl/src/sigma/opengl/geometry_buffer.cpp:35-53 | draws only into `images_[output]`, binds position, diffuse, normal and `images_[input]`; the sampled input image is not a draw target |
| GeometryBuffer.GBuffer.ClearInputImage | backends/graphics/sopengl/src/sigma/opengl/geometry_buffer.cpp:55-60 | the clear hits the output image (the only draw target), never the input image |
| GeometryBuffer.GBuffer.SwapInputImage | backends/graphics/sopengl/src/sigma/opengl/geometry_buffer.cpp:62-69 | both indices step modulo 2, which exchanges them; the output attachment follows the new output index; the invariant is kept |
| ComponentSystems.ComponentSystem.constructor | include/sigmafive/game/component_system_manager.hpp:43-48 | a system remembers the class it was created as |
| ComponentSystems.ComponentSystemManager.constructor | include/sigmafive/game/component_system_manager.hpp:70-71 | the registry, a default-constructed `component_systems_` map, starts empty |
| ComponentSystems.ComponentSystemManager.Get | include/sigmafive/game/component_system_manager.hpp:55-61 | null exactly when absent; otherwise the system filed under the id, of that class |
| ComponentSystems.ComponentSystemManager.Add | include/sigmafive/game/component_system_manager.hpp:43-48 | a fresh system of the class is filed under its id, overwriting any earlier one; other ids untouched |
| ComponentSystems.ComponentSystemManager.Remove | include/sigmafive/game/component_system_manager.hpp:63-68 | the id is absent afterwards; a no-op when it was absent; other ids untouched |
| Materials.ShaderMapKeys | src/sigma/graphics/material.cpp:5-15 | a shader type is in the map exactly when some entry of the data names it |
| Materials.ShaderMapLastWins | src/sigma/graphics/material.cpp:5-15 | the handle of a type comes from the last entry naming it |
| Materials.Material.constructor | src/sigma/graphics/material.cpp:5-15 | the flag copied, shaders inserted in order, textures appended in order with their names |
| Materials.Material.Shader | src/sigma/graphics/material.cpp:27-30 | returns the stored handle; a missing type is inserted with an empty handle, which is returned |
| Materials.Material.SetShader | src/sigma/graphics/material.cpp:32-39 | the type maps to the new handle; every other type is untouched |
| Materials.Material.SetTexture | src/sigma/graphics/material.cpp:51-58 | the handle at the index is replaced; count, names and other handles stay |
| Identifiers.Eq | src/sigmafive/resource/identifier.cpp:15-19 | equality by value; equivalently the printed forms agree |
| Identifiers.Neq | src/sigmafive/resource/identifier.cpp:21-25 | `!=` is the negation of `==` |
| Identifiers.ValueIsConversion | src/sigmafive/resource/identifier.cpp:27-32 | `value()` and the conversion to `hash_type` give the same value |
| Identifiers.Named | src/sigmafive/resource/identifier.cpp:34-38 | the name kept as given, the value its hash (also the `std::string` constructor at 68-72) |
| Identifiers.SameNameSameIdentifier | src/sigmafive/resource/identifier.cpp:15-19 | identifiers built from names are equal exactly when the names hash alike |
| Identifiers.Slashed | src/sigmafive/resource/identifier.cpp:49 | same length, each backslash becomes a slash and every other character stays |
| Identifiers.SlashedHasNoBackslash | src/sigmafive/resource/identifier.cpp:49 | no backslash is left after the rewrite |
| Identifiers.SlashedAppend | src/sigmafive/resource/identifier.cpp:62-63 | the rewrite distributes over concatenation |
| Identifiers.SlashedIdempotent | src/sigmafive/resource/identifier.cpp:49 | a second rewrite changes nothing |
| Identifiers.ReplaceAll | src/sigmafive/resource/identifier.cpp:49 | the in-place left-to-right loop yields the rewritten string |
| Identifiers.FromPath | src/sigmafive/resource/identifier.cpp:40-52 | name is `type + "://" +` the slashed resource path, value its hash, no backslash after the prefix |
| Identifiers.FromSubPath | src/sigmafive/resource/identifier.cpp:54-66 | name is `type + "://" +` slashed path `+ ":" +` slashed sub-name, value its hash, no backslash after the prefix |
| Identifiers.Decimal | src/sigmafive/resource/identifier.cpp:76-81 | the decimal form of a value is a non-empty digit string that, read left to right, denotes the value; it starts with `0` only for 0, and has one digit exactly below 10 |
| Identifiers.DecimalOfDigits | src/sigmafive/resource/identifier.cpp:76-81 | every digit string without a leading zero is the decimal form of the number it denotes |
| Identifiers.DecimalInjective | src/sigmafive/resource/identifier.cpp:76-81 | distinct values print differently |
| Identifiers.Print | src/sigmafive/resource/identifier.cpp:76-81 | `{`, then `"value:"`, then exactly `Decimal(value)`, then `}` |
| Identifiers.PrintDevelopment | src/sigmafive/resource/identifier.cpp:83-88 | the plain identifier's printed form with `,"name:"` and the name inserted before its closing brace |
| Identifiers.PrintInjective | src/sigmafive/resource/identifier.cpp:76-81 | the printed form `{"value:"v}` determines the identifier |
| Identifiers.PrintDevelopmentInjective | src/sigmafive/resource/identifier.cpp:83-88 | the printed form `{"value:"v,"name:"n}` determines both value and name |
| Cascades.CascadesChain | src/sigma/graphics/opengl/renderer.cpp:12-38 | `count` cascades; cascade i ends where cascade i+1 starts; the last ends at the view's far plane; the first starts at split 0 |
| Cascades.CalculateCascadeFrustums | src/sigma/graphics/opengl/renderer.cpp:12-38 | as many cascades as slots, each with the view's fovy, aspect and view matrix, chained near-to-far, ending at the far plane |
| RenderTokens.FillRenderTokenStream | src/sigma/graphics/opengl/renderer.cpp:631-666 | the stream grows by exactly the world's tokens; its old contents stay as a prefix |
| RenderTokens.StreamTokensAppend | src/sigma/graphics/opengl/renderer.cpp:634-665 | the tokens of two worlds in sequence are the tokens of each, in order |
| RenderTokens.CulledInstanceAddsNothing | src/sigma/graphics/opengl/renderer.cpp:637 | an instance outside the frustum contributes no token |
| RenderTokens.VisibleInstances | src/sigma/graphics/opengl/renderer.cpp:637 | the instances passing the frustum test: each kept one is from the world and visible, and every visible instance of the world is kept |
| RenderTokens.VisibleInstancesAppend | src/sigma/graphics/opengl/renderer.cpp:634-637 | filtering two worlds in sequence filters each, in order |
| RenderTokens.GlobalTechniqueTokens | src/sigma/graphics/opengl/renderer.cpp:640-649 | with a global technique every visible instance yields exactly one token: offset 0, count 3 × triangles, that technique |
| RenderTokens.SlotTokensInOrder | src/sigma/graphics/opengl/renderer.cpp:651-662 | one token per material slot in slot order, offset and count three times the slot's, the slot's material and its technique |
| RenderTokens.InstanceTokensShareMatrices | src/sigma/graphics/opengl/renderer.cpp:638-662 | all tokens of an instance share its matrices and mesh buffer; a culled instance gives none; without a global technique one token per slot |
| TokenSort.LessIsStrictWeakOrder | src/sigma/graphics/opengl/renderer.cpp:670-680 | the comparator is irreflexive, asymmetric and transitive, and incomparability is equality of keys |
| TokenSort.SortedTokensSorted | src/sigma/graphics/opengl/renderer.cpp:668-681 | the sorted stream is sorted and a permutation of the input |
| TokenSort.SortRenderTokenStream | src/sigma/graphics/opengl/renderer.cpp:668-681 | the result is sorted under the comparator and as long as the input |
| TokenSort.SortedKeysNonDecreasing | src/sigma/graphics/opengl/renderer.cpp:670-680 | in a sorted stream (technique, batch index, material) never decreases lexicographically |
| Renderer.DrawLoopDraws | src/sigma/graphics/opengl/renderer.cpp:353-366 | a draw loop issues exactly one draw per token, in stream order, and no other draw |
| Renderer.DrawsForTokens | src/sigma/graphics/opengl/renderer.cpp:359-364 | draw k has the count of token k and byte offset 4 × (base index + offset) |
| Renderer.DrawLoopBatchBinds | src/sigma/graphics/opengl/renderer.cpp:353-366 | since `last_batch` is never updated, a batch is bound for every token whose batch index is not `(size_t)-1` |
| Renderer.DrawLoopUnmarked | src/sigma/graphics/opengl/renderer.cpp:353-366 | a draw loop binds no accumulation image and draws no effect |
| Renderer.DirectionalOutline | src/sigma/graphics/opengl/renderer.cpp:424-504 | n directional lights bind the accumulation images n times for reading, each followed by one directional-light draw |
| Renderer.SpotOutline | src/sigma/graphics/opengl/renderer.cpp:544-586 | n spot lights bind the accumulation images n times for reading, each followed by one spot-light draw |
| Renderer.LightPassOutline | src/sigma/graphics/opengl/renderer.cpp:373-395 | the light pass reads from the input image and draws into the output image: image-based lighting first when enabled, then directional, point and spot lights |
| Renderer.GeometryPassOutline | src/sigma/graphics/opengl/renderer.cpp:335-371 | the geometry pass binds the accumulation images once, drawing into the output image, and draws no effect |
| Renderer.CompositeOutline | src/sigma/graphics/opengl/renderer.cpp:150-160 | the composite reads the image the passes drew into and draws the gamma conversion |
| Renderer.RenderOutline | src/sigma/graphics/opengl/renderer.cpp:88-161 | a frame writes the output image in the geometry pass, lights read input and write output, then after the swap the composite samples the former output |
| Renderer.Renderer.constructor | src/sigma/graphics/opengl/renderer.cpp:40-74 | three cascades, empty streams, input image 0 and output image 1, empty trace |
| Renderer.Renderer.CreateGeometryBuffer | src/sigma/graphics/opengl/renderer.cpp:203-204 | input image 0, output image 1; nothing else changes |
| Renderer.Renderer.GeometrySwapInputImage | src/sigma/graphics/opengl/renderer.cpp:207-213 | both indices step modulo 2, exchanging them; they stay distinct and in {0, 1} |
| Renderer.Renderer.BindForGeometryRead | src/sigma/graphics/opengl/renderer.cpp:215-233 | samples the input image and draws into the output image, never the same one |
| Renderer.Renderer.BindForGeometryWrite | src/sigma/graphics/opengl/renderer.cpp:235-246 | draws into the output image and samples the input image, never the same one |
| Renderer.Renderer.BindForShadowRead | src/sigma/graphics/opengl/renderer.cpp:292-299 | binds shadow maps 0, 1, 2 in order |
| Renderer.Renderer.BindForShadowWrite | src/sigma/graphics/opengl/renderer.cpp:301-309 | the shadow map of the index becomes the draw target |
| Renderer.Renderer.DrawEffectMesh | src/sigma/graphics/opengl/renderer.cpp:683-694 | one effect draw; the state is unchanged |
| Renderer.Renderer.BindTechnique | src/sigma/graphics/opengl/renderer.cpp:355-356 | the geometry loop binds technique and material, then the matrices; the shadow loop only sets the matrices |
| Renderer.Renderer.DrawToken | src/sigma/graphics/opengl/renderer.cpp:354-365 | one iteration: technique binds, the batch bind when the batch differs from `last_batch`, then the draw |
| Renderer.Renderer.DrawLoop | src/sigma/graphics/opengl/renderer.cpp:353-366 | the loop appends the events of every token in stream order |
| Renderer.Renderer.GeometryPass | src/sigma/graphics/opengl/renderer.cpp:335-371 | bind for writing, clear, then draw the sorted visible tokens; the stream is empty again and the state is unchanged |
| Renderer.Renderer.RenderToShadowMap | src/sigma/graphics/opengl/renderer.cpp:588-629 | always binds and clears the map first; without casting shadows that is all; otherwise the sorted whole-mesh tokens are drawn with the shadow technique |
| Renderer.Renderer.ImageBasedLightPass | src/sigma/graphics/opengl/renderer.cpp:397-415 | bind for reading, then the image-based lighting draw |
| Renderer.Renderer.DirectionalLightPass | src/sigma/graphics/opengl/renderer.cpp:424-504 | per light: cascades recomputed, one shadow map per cascade, read binds, the light draw; the indices are unchanged |
| Renderer.Renderer.DirectionalLight | src/sigma/graphics/opengl/renderer.cpp:459-503 | one light: the cascades become the view's cascades, map i from cascade i, then read binds and the draw |
| Renderer.Renderer.CascadeShadowMaps | src/sigma/graphics/opengl/renderer.cpp:470-477 | shadow map i rendered from cascade i, for the three maps |
| Renderer.Renderer.PointLightPass | src/sigma/graphics/opengl/renderer.cpp:506-542 | one read bind, then one point-light draw per light |
| Renderer.Renderer.SpotLightPass | src/sigma/graphics/opengl/renderer.cpp:544-586 | per light: its shadow map into map 0, read binds, the spot-light draw |
| Renderer.Renderer.LightPass | src/sigma/graphics/opengl/renderer.cpp:373-395 | image-based lighting only when enabled, then directional, point and spot passes |
| Renderer.Renderer.Render | src/sigma/graphics/opengl/renderer.cpp:88-161 | geometry pass, light pass, swap, read bind, default-framebuffer clear, gamma draw; afterwards the two indices are exchanged |

## Left out

- GL calls that do not touch the modelled state are not recorded: blend, depth, cull, viewport, uniforms, mipmap generation, `setup_view_projection` and the shadow uniform buffer. This covers the light-space projections of directional and spot lights.
- The debug drawing in `render` and the debug-frustum capture in `directional_light_pass` are left out. So are the GL debug callback, the timer and the shadow-map creation. Their effect on the rest is none, or it is GL-side only.
- Floating point is not modelled: the cascade split formula (lambda 0.7, log and uniform splits) is the parameter `SplitFormula`. Matrices, positions and colours are opaque.
- The hash function, boost's `absolute`, `replace_extension` and `path_divergence`, and the caches and handle look-ups are function parameters.
- `shared_ptr`/`unique_ptr` ownership and handle resolution are not modelled. Pointers are `nat` addresses compared as the comparator compares them.
- RenderTokens.WholeMeshToken: the material of a global-technique token is left null, as the source does not set it.
- Renderer.Renderer.GeometryPass: the unused `transparent` parameter is dropped.
- TokenSort.SortRenderTokenStream: `std::sort` is modelled by one insertion sort, so the relative order of tokens with equal keys is one of those `std::sort` may leave. Its ensures gives sortedness and length. The permutation is proved about the same result in `TokenSort.SortedTokensSorted`.
- RenderTokens.SlotToken: `3 * material_slots[i].first` is unbounded, so unsigned overflow of the offset or count is not modelled.
- Mat4: integers are unbounded, so `int` overflow is not modelled. Left out are `/` and `/=`, the ordering comparisons, `setColumn`, `getInverse`/`inverse` and `perspective`, because they involve division or floating point. `operator[]` is the `At`/`Set` access.
- Buddy: `size_t` is 64 bits (`(size_t)-1` is 2^64 - 1). Block counts are powers of two up to 2^63, so the node count fits. The floating-point `ceil(log2(blocks))` of `order` is computed exactly.
- Buddy.Order, Buddy.Alloc, Buddy.BuddyArrayAllocator.Allocate, Buddy.BuddyArrayAllocator.AllocateAt: a request for zero blocks is excluded by `requires blocks >= 1`. The source does not handle it. `order(0)` converts `ceil(log2(0))`, minus infinity, to `size_t`. `allocate_(0, …)` never takes a node whole, because `lower < blocks` is never true. So it splits every free node it meets. At a free leaf it recurses to child `2 * node + 1`, past the end of `nodes_`. It reads out of range there and may write there too. From there the size stays 0, so the recursion ends only when it reads a byte with the used bit set.
- `sizeof(unsigned int)` is taken as 4.
- Materials.Material.Shader, Materials.Material.Texture: the source returns a `handle&` into the material; the model returns a copy, so a write through the returned reference is not modelled. That write is what Materials.Material.SetShader and Materials.Material.SetTexture do, and they are modelled.
- Materials.Material.IsTransparent, Materials.Material.HasShader, Materials.Material.TextureCount and ComponentSystems.ComponentSystemManager.Has are plain field reads. They have no contract beyond their definitions and appear in the contracts of the members above.
- Draws through `draw_effect_mesh` are one `DrawEffect` event. Their batch bind and element draw are not separate events.

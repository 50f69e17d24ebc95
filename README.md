# OpenGL test-bed bookkeeping, modelled in Dafny

This project models the sequential bookkeeping at the heart of a small C OpenGL test-bed:

- **Memory** (`memory.dfy`): the bump region allocator of `src/memory.c` and the size macros,
  power-of-two test and `MemoryRegion` record of `src/memory.h`. Addresses are natural numbers
  below 2^64, and the alignment padding is computed on the absolute address `buffer + used`.
- **RendererShaderBank** (`shader_bank.dfy`): the shader bank of `src/renderer/shader_bank.c`.
  It holds the fixed 64-row table of (path, name) pairs, the `mod` timestamps, the `programs`
  handles and the active program index, and runs the hot-reload state machine. The file system
  and the GL compiler are an oracle: for each row and each pass, a `SlotProbe` says whether the
  file opened, its mtime and size, whether each stage compiled, whether the link succeeded, and
  the new program handle.
- **VertexArray** (`vertex_array.dfy`): `VertLayoutPush` and `VABindLayout` of
  `src/renderer/vertex_array.c`. The `glVertexAttribPointer` calls are the bind's result.
- **ModelImport** (`model.dfy`): the bookkeeping of `src/renderer/model.c`.
  - `fnv_1a`, using the 32-bit FNV constants in a 64-bit accumulator.
  - The vertex and index fill loops of `CreateMeshFromAssimp`.
  - The pre-order mesh collection of `ProcessAssimpNode`.
  - The `strcpy`/`strcat` path building of `LoadModelFromAssimp`.
  - The importer's scene, meshes and node tree are plain values.
- **LegacyShaderBank** (`legacy_shader_bank.dfy`): the earlier per-stage bank of
  `src/shader_bank.c`. It records a vertex and a fragment timestamp per program and encodes
  "what changed" as a flag (1 vertex, 2 fragment, 3 both).
- **Wrappers** (`wrappers.dfy`): `Option` and the first-match linear scan the lookups use.

Stateful code is modelled as classes whose methods update fields and arrays. Each method is
proved against a specification function on sequences, and the properties the program relies on
are lemmas about those functions.

Where the code and the intended design differ, the model follows the code:

- In the renderer's reload, a file seen to be newer has its time recorded before its size is
  checked or anything is compiled. A row that fails is therefore not retried until its file
  changes again (`FailedRowNotRetried`).
- The renderer's size test rejects only files larger than 8192 bytes. A file of exactly 8192
  bytes is read, and its terminator is written one byte past the source buffer. That byte is the
  first byte of `mod[0]`, because the `mod` slice starts right after the buffer. The model takes
  the target to be little-endian with a 64-bit `time_t`, so the write clears the low byte of
  row 0's recorded time. The reload model includes this write.
- In the legacy bank, the loop guard `programme_idx == ArrayCount(shaders.paths)` compares
  against 0: `shaders.paths` is a pointer to a two-pointer row, 8 bytes over 16. The guard holds
  at 0, so the body runs exactly once, for row 0, and not zero times. The counter then becomes 2
  and the loop stops.

## Model

| member | source | states |
|---|---|---|
| Memory.SizeMacroValues | src/memory.h:4-6 | KB(1), MB(1) and GB(1) are 2^10, 2^20 and 2^30, and the shader bank's 10*KB(64) region is 655360 bytes |
| Memory.MBFitsInt | src/memory.h:5 | MB(x) fits a 32-bit int exactly when -2048 <= x <= 2047 |
| Memory.GBFitsInt | src/memory.h:6 | GB(x) fits a 32-bit int exactly when -2 <= x <= 1; GB(2) overflows |
| Memory.PowerOf2Passes | src/memory.h:8 | IS_POWER_OF_2 holds for every power of two below 2^64 |
| Memory.ZeroPassesPowerOf2 | src/memory.h:8 | IS_POWER_OF_2 also holds for 0 |
| Memory.TwoBitsFailPowerOf2 | src/memory.h:8 | a value with two distinct bits set fails IS_POWER_OF_2, so the test holds exactly for 0 and the powers of two |
| Memory.LowBitsMaskIsRemainder | src/memory.c:39-41 | `p & 15` is p mod 16, and it is 0 exactly when p is 16-aligned |
| Memory.Padding16 | src/memory.c:35-42 | the padding is below 16, makes the absolute address 16-aligned, and is 0 exactly when the address already is |
| Memory.SliceShape | src/memory.c:35-49 | a slice starts 16-aligned, within 16 bytes at or after `buffer + used`, and the cursor ends right after it |
| Memory.SliceRunBounds | src/memory.c:35-49 | over any run of slices `used` never decreases, and every slice is aligned and lies between the starting and the final cursor |
| Memory.SliceRunDisjoint | src/memory.c:35-49 | successive slices never overlap: each starts at or after the end of every earlier one |
| Memory.RunFitsIffFinalFits | src/memory.c:46 | every slice of a run passes the capacity assert exactly when the final cursor is within the buffer |
| Memory.SliceAssertAgrees | src/memory.c:46 | while `used + slice_size` stays below 2^64, the assert as C evaluates it is exactly the capacity check the model uses |
| Memory.WrappedSlicePassesAssert | src/memory.c:46 | 16 bytes used of a 1024-byte buffer and a request for 2^64 - 1 bytes: the sum wraps to 15 and passes the assert, although the slice does not fit |
| Memory.WorkedExample | src/memory.c:35-49 | from a 16-aligned buffer, slicing 10 then 5 bytes gives offsets 0 and 16 and leaves used at 10 then 21; a further 2000 bytes of 1024 fail the assert |
| Memory.MemoryRegion.constructor | src/memory.h:10-14 | a zeroed record: buffer, buffer_size and used are 0 |
| Memory.MemoryRegion.InitRegion | src/memory.c:18-27 | records the buffer and size, sets used to 0, zeroes exactly the first `size` bytes and leaves the rest of the backing store alone |
| Memory.MemoryRegion.SliceRegion16 | src/memory.c:30-53 | under the capacity assert, returns the 16-aligned start of a slice inside [buffer, buffer + buffer_size) and advances used by padding plus size |
| RendererShaderBank.SlotFailsExactly | src/renderer/shader_bank.c:66-193 | a row clears the status exactly on open failure, or on a newer file whose size is unknown or above 8192 bytes, or whose stage fails; a link failure keeps the status true |
| RendererShaderBank.ProgramReplacedOnlyWhenLinked | src/renderer/shader_bank.c:168-193 | a row's handle changes only when the file is newer, both stages compile and the link succeeds, and then it becomes the new program |
| RendererShaderBank.RecordedTimeMonotone | src/renderer/shader_bank.c:80-85 | the record step never lowers a row's time, and any new value is the file's mtime |
| RendererShaderBank.PassRecordsMonotone | src/renderer/shader_bank.c:58-115 | over a pass no record decreases, except `mod[0]` when some terminator lands past the buffer; it then ends less than 256 below the time its own row recorded |
| RendererShaderBank.OverrunLowersRowZero | src/renderer/shader_bank.c:103-115 | row 0 up to date at 300 and a newer 8192-byte file in row 1: `mod[0]` drops to 256, while with a 100-byte file it stays 300 |
| RendererShaderBank.RowZeroReloadsEveryPass | src/renderer/shader_bank.c:80-115 | an 8192-byte file in row 0 saved at 300: each pass records 300, the terminator lowers it to 256, and the row is recompiled on every pass |
| RendererShaderBank.SmallFilesNeverOverrun | src/renderer/shader_bank.c:103-115 | when every file is under 8192 bytes, no terminator lands past the buffer and every record is its own row's |
| RendererShaderBank.FailedRowNotRetried | src/renderer/shader_bank.c:80-109 | a newer file that then fails has its time recorded anyway, so the next pass over the same file sees it unchanged and reports no failure |
| RendererShaderBank.UnchangedPassIsNoOp | src/renderer/shader_bank.c:81-91 | a pass in which no file is newer than its record changes neither `mod` nor `programs` and returns true |
| RendererShaderBank.SecondPassIsNoOp | src/renderer/shader_bank.c:54-201 | a second pass over the same files changes no row but row 0; if the first pass wrote no terminator past the buffer, it changes nothing at all and fails exactly when some file cannot be opened |
| RendererShaderBank.ReloadIsolation | src/renderer/shader_bank.c:58-198 | what happens to row j never changes another row's handle or status, nor another row's record except `mod[0]`; `mod[0]` matches as well unless row j decides whether a terminator lands past the buffer |
| RendererShaderBank.HandleNeverCleared | src/renderer/shader_bank.c:184-193 | when GL hands out nonzero names, a row that holds a program keeps a nonzero handle after any pass |
| RendererShaderBank.AcceptedSizeHoldsTerminator | src/renderer/shader_bank.c:96-115 | under the corrected test (reject 8192 bytes and more), every file that is read leaves room for its terminator in the buffer |
| RendererShaderBank.CorrectedDiffersOnlyAtOverrun | src/renderer/shader_bank.c:103-115 | the corrected test changes the outcome of exactly the rows whose terminator lands past the buffer, and makes each of them a size failure |
| RendererShaderBank.RowStepExtendsPass | src/renderer/shader_bank.c:58-198 | the loop body for row n turns `mod` and `programs` after the first n rows into those after n + 1 rows |
| RendererShaderBank.AllRowsArePass | src/renderer/shader_bank.c:58-198 | once every row has run, `mod` and `programs` are those of the whole pass |
| RendererShaderBank.TerminatorOverrunAsWritten | src/renderer/shader_bank.c:103-115 | as written, a file of exactly 8192 bytes passes the test, and its terminator lands on the first byte of the `mod` slice |
| RendererShaderBank.InitLayout | src/renderer/shader_bank.c:42-46 | the source buffer and the `mod` and `programs` slices fit the 640 KiB region, one after another, for up to 64 rows |
| RendererShaderBank.ShaderBank.CarveRegion | src/renderer/shader_bank.c:42-46 | the region starts at the given address with 640 KiB, and the source buffer, `mod` and `programs` start where three successive 16-aligned slices of 8192, 8 * count and 4 * count bytes do |
| RendererShaderBank.ShaderBank.constructor | src/renderer/shader_bank.c:19 | the zeroed bank: no rows, no arrays, program 0 active |
| RendererShaderBank.ShaderBank.RegisterShader | src/renderer/shader_bank.c:32-38 | appends (path, name) as row `programs_count`, increments the count by one and leaves the other rows alone; needs fewer than 64 rows |
| RendererShaderBank.ShaderBank.InitShaderBank | src/renderer/shader_bank.c:40-52 | zeroes a 640 KiB region, carves the three slices from it with `mod` right after the source buffer, makes program 0 active, and returns the first pass over all-zero records |
| RendererShaderBank.ShaderBank.ReloadRow | src/renderer/shader_bank.c:63-197 | one pass of the loop body: it clears the status exactly where the row fails, records the time, writes the terminator onto `mod[0]` when it falls past the buffer, and stores the program on a successful link |
| RendererShaderBank.ShaderBank.ReloadShaderBank | src/renderer/shader_bank.c:54-201 | `mod`, `programs` and the status become those of the pass over every registered row, including the terminator write onto `mod[0]` |
| RendererShaderBank.ShaderBank.UseProgramName | src/renderer/shader_bank.c:203-216 | the first row with the name becomes active and its program is bound; on a miss nothing changes and nothing is bound |
| RendererShaderBank.ShaderBank.UseProgram | src/renderer/shader_bank.c:218-232 | the first row holding the handle becomes active and the handle is bound; on a miss nothing changes |
| RendererShaderBank.ShaderBank.QueryProgram | src/renderer/shader_bank.c:234-248 | returns the program of the first row with the name, or the caller's value untouched on a miss |
| RendererShaderBank.ShaderBank.GetActiveProgram | src/renderer/shader_bank.c:250-253 | returns the active row's handle |
| RendererShaderBank.ShaderBank.SetUniform | src/renderer/shader_bank.c:255-288 | every set_* call addresses the active row's program with the given name and value |
| RendererShaderBank.CubeLightScenario | src/renderer/renderer.c:186-190 | registering cube, light and ui, initialising, then touching only cube: both passes succeed, cube gets its new program, and light and ui keep their handles |
| RendererShaderBank.CubeLightPasses | src/renderer/renderer.c:186-190 | the scenario's two passes: both succeed, the first records time 100 and the three programs, and the second replaces only cube's program |
| Wrappers.FirstIndex | src/renderer/shader_bank.c:206-214 | the first-match scan: a hit is the lowest index holding the value, and there is a miss exactly when no element holds it |
| VertexArray.PrefixBytesMonotone | src/renderer/vertex_array.c:57-86 | the running offset never decreases along the attributes |
| VertexArray.PrefixStep | src/renderer/vertex_array.c:68-80 | each attribute moves the offset on by exactly its byte size |
| VertexArray.StrideStep | src/renderer/vertex_array.c:31-42 | adding one attribute's bytes to a u32 stride that tracks the total gives the total with that attribute, modulo 2^32 |
| VertexArray.OffsetStep | src/renderer/vertex_array.c:68-80 | adding attribute i's bytes to the wrapped offset of attributes 0..i-1 gives the wrapped offset of attributes 0..i |
| VertexArray.AttributeWithinTotal | src/renderer/vertex_array.c:57-86 | every attribute starts at its offset and ends within the total of all attributes |
| VertexArray.FinalOffsetIsStride | src/renderer/vertex_array.c:31-80 | for a stride built by pushes whose total fits a u32, the offset after the last attribute equals the stride and every attribute lies within one stride |
| VertexArray.RendererLayoutOffsets | src/renderer/renderer.c:210-212 | the renderer's 3, 3 and 2 float attributes give offsets 0, 12 and 24 and a 32-byte total |
| VertexArray.VertexLayout.constructor | src/renderer/renderer.c:208 | an empty layout over the given attribute slots, with stride 0 |
| VertexArray.VertexLayout.VertLayoutPush | src/renderer/vertex_array.c:20-51 | appends (count, type, normalized) at `attributes[count]`, counts it, grows the stride by 4, 4, 1 or 0 bytes per component modulo 2^32, and keeps the stride equal to the pushed total |
| VertexArray.VertexArray.constructor | src/renderer/vertex_array.c:4-15 | a vertex array named by GL with no layout yet |
| VertexArray.VertexArray.VABindLayout | src/renderer/vertex_array.c:53-89 | stores the layout, and attribute i is described with the layout's stride at the byte total of attributes 0..i-1 |
| VertexArray.CubeLayout | src/renderer/renderer.c:208-212 | the cube's pushes and bind give stride 32 and offsets 0, 12 and 24 |
| ModelImport.FnvEmpty | src/renderer/model.c:24-30 | the hash of no bytes is the offset basis 2166136261 |
| ModelImport.FnvNotTruncated | src/renderer/model.c:18-30 | the accumulator is not cut to 32 bits: one zero byte already gives 2166136261 * 16777619, with bits set above bit 31 |
| ModelImport.Fnv1a | src/renderer/model.c:22-31 | for fewer than 256 bytes, the loop returns the FNV-1a fold over the bytes with 64-bit wrap-around |
| ModelImport.U8CounterNeverExits | src/renderer/model.c:25 | with 256 or more bytes, every u8 counter value and the value it wraps to are below the size, so the loop never ends |
| ModelImport.Fnv1aWide | src/renderer/model.c:22-31 | with a counter as wide as the size, the loop returns the fold for any number of bytes |
| ModelImport.FlattenAt | src/renderer/model.c:82-126 | the index list has 3 entries per face, and entry 3k+j is index j of face k |
| ModelImport.FillVertices | src/renderer/model.c:90-115 | one vertex per position; vertex i has position and normal i, and channel 0's UVs or (0, 0) |
| ModelImport.FillIndices | src/renderer/model.c:117-126 | three indices per face, and the list is the faces' indices in face order |
| ModelImport.CreateMeshFromAssimp | src/renderer/model.c:73-126 | vertex_count and index_count = 3 * faces; vertex i copies position and normal with UVs from channel 0 or (0, 0); the indices are the flattened triangles |
| ModelImport.VisitStep | src/renderer/model.c:300-304 | visiting child c extends the references seen so far by that child's subtree |
| ModelImport.ChildrenPreOrderPrefix | src/renderer/model.c:300-304 | the references of fewer children are a prefix of those of more children |
| ModelImport.PreOrderRefsBelow | src/renderer/model.c:295 | when every reference in the tree names a scene mesh, so does every collected reference |
| ModelImport.ChildrenRefsBelow | src/renderer/model.c:300-304 | the same bound for the references of the first c children |
| ModelImport.PreOrderExample | src/renderer/model.c:293-304 | a root with mesh 0 and children (1 with child 2) and (3) is collected as 0, 1, 2, 3 |
| ModelImport.InstancedMeshOutgrowsArray | src/renderer/model.c:296-332 | a node that references one scene mesh twice yields more meshes than the array sized by the scene holds |
| ModelImport.Model.constructor | src/renderer/model.c:311 | the zeroed model: no meshes and an empty folder path |
| ModelImport.BuiltRangeFrame | src/renderer/model.c:296 | meshes already built stay built while other slots are written |
| ModelImport.BuiltRangeAppend | src/renderer/model.c:293-304 | two adjacent built runs of slots form one, in reference order |
| ModelImport.ExtendBuilt | src/renderer/model.c:300-304 | one child's recursive call extends the node's built run by that child's meshes and keeps every other slot |
| ModelImport.Model.StoreMesh | src/renderer/model.c:296 | the mesh goes into slot `mesh_count`, which then grows by one; no other slot changes |
| ModelImport.AppendNodeMesh | src/renderer/model.c:294-296 | one pass of the loop extends the built run by the referenced mesh and leaves the slots before the run and after the new end as they were |
| ModelImport.AppendNodeMeshes | src/renderer/model.c:293-297 | appends one mesh per own reference at `mesh_count`, built from the referenced scene mesh, and leaves the other slots alone |
| ModelImport.ProcessAssimpNode | src/renderer/model.c:284-306 | mesh_count grows by the number of references in the subtree, and the new slots hold their meshes in pre-order, own meshes first, then children left to right |
| ModelImport.StrCpy | src/renderer/model.c:189-319 | the buffer holds the source string followed by a terminator |
| ModelImport.StrCat | src/renderer/model.c:190-321 | a buffer holding s ends up holding s followed by the appended string and a terminator |
| ModelImport.IncompleteCheckAlwaysPasses | src/renderer/model.c:326 | as written, the incomplete-scene assert passes for every flags value, including an incomplete scene |
| ModelImport.CorrectedCheckRejectsIncomplete | src/renderer/model.c:326 | the corrected check rejects every scene flagged incomplete and accepts every other |
| ModelImport.TexturePath | src/renderer/model.c:186-190 | the texture path is the model folder path followed by the texture's file name |
| ModelImport.LoadModelFromAssimp | src/renderer/model.c:309-341 | the folder path is "assets\" + folder + "\", the import path adds the model name, the scene assert passes for every flags value, the mesh array is sized by the scene, and the model holds one mesh per reference in pre-order |
| LegacyShaderBank.ArrayCountValues | src/shader_bank.c:9-65 | ArrayCount of the static table is 3, but ArrayCount of the `shaders.paths` pointer is 0 |
| LegacyShaderBank.ChangeFlagMeaning | src/shader_bank.c:193-208 | the flag is nonzero exactly when a stage is newer; bit 0 is the vertex, bit 1 is the fragment |
| LegacyShaderBank.FragmentChangeRedetected | src/shader_bank.c:197-208 | the fragment slot is never written, so a newer fragment is detected again on the next reload with the same files |
| LegacyShaderBank.VertexRecordLowered | src/shader_bank.c:197-208 | when both stages are newer and the fragment is older, the vertex slot drops to the fragment's mtime and the vertex is reloaded again next time |
| LegacyShaderBank.ReloadNeverSettlesExample | src/shader_bank.c:193-215 | records (10, 20) and a fragment saved at 25: every later reload with the same files raises flag 2 |
| LegacyShaderBank.AsWrittenTouchesRowZeroOnly | src/shader_bank.c:63-283 | one pass of either loop body at index 0 leaves every slot of rows 1 and 2 unchanged |
| LegacyShaderBank.RowStep | src/shader_bank.c:193-264 | a corrected pass over row r changes only that row's slots and leaves its records at least its files' mtimes |
| LegacyShaderBank.SettledRowUnchanged | src/shader_bank.c:210-215 | a row whose records are not older than its files is not touched |
| LegacyShaderBank.ReloadSettlesRows | src/shader_bank.c:164-283 | after a corrected reload of the first k rows, every one of them is settled |
| LegacyShaderBank.SettledReloadUnchanged | src/shader_bank.c:164-283 | a corrected reload of a settled bank changes nothing |
| LegacyShaderBank.ReloadCorrectedIdempotent | src/shader_bank.c:164-283 | with the timestamp in its own slot and every row visited, a second reload with the same files changes nothing |
| LegacyShaderBank.InitSettlesRows | src/shader_bank.c:63-154 | a corrected init over every row leaves each row settled |
| LegacyShaderBank.ReloadAfterInitUnchanged | src/shader_bank.c:46-283 | after a corrected init, a corrected reload with the same files changes nothing |
| LegacyShaderBank.LegacyBank.constructor | src/shader_bank.c:33 | the zeroed record: no arrays yet |
| LegacyShaderBank.LegacyBank.Allocate | src/shader_bank.c:52-54 | fresh zeroed arrays of 6 times, 6 stage handles and 3 programs |
| LegacyShaderBank.LegacyBank.InitRow | src/shader_bank.c:66-153 | one pass of the init loop body at stage slot idx: the new state is the as-written init step |
| LegacyShaderBank.LegacyBank.ReloadRow | src/shader_bank.c:168-280 | one pass of the reload loop body at stage slot idx: the new state is the as-written reload step |
| LegacyShaderBank.LegacyBank.ReloadRowCorrectedStep | src/shader_bank.c:168-280 | the corrected body for row r: the new state is the corrected step, with times in slots 2r and 2r+1 and the program in slot r |
| LegacyShaderBank.LegacyBank.InitShaderBank | src/shader_bank.c:46-155 | zeroed arrays of 6, 6 and 3 entries; then only row 0 is visited: on two opens both mtimes are recorded, and the handles and program are stored as far as the sizes allow; returns 0 |
| LegacyShaderBank.LegacyBank.ReloadShaderBank | src/shader_bank.c:158-284 | only row 0 is visited: both comparisons write slot 0 and set the flag, and with a nonzero flag the handles and, unconditionally, the program are stored; returns 0 |
| LegacyShaderBank.LegacyBank.ReloadShaderBankCorrected | src/shader_bank.c:158-284 | every row r is visited, with its vertex and fragment times in slots 2r and 2r+1 and its program in slot r |

## Left out

- File system, GL and importer calls are not modelled: `fopen`, `stat`, `ftell`, `fread`, the shader compile and link calls, `glUseProgram`, `glUniform*`, `glVertexAttribPointer`, `aiImportFile`. They become probe inputs or returned call records.
- Printing and `glDebugMessageInsert` are not modelled; they are logging only.
- `fclose(NULL)` on the open-failure paths is modelled as a plain "open failed" outcome. This covers the renderer bank and the legacy bank, which closes both files whichever one failed to open.
- Single-precision floats (positions, normals, UVs, uniform values) are opaque bit patterns that are only copied. `src/gfx_math.h` and the cameras are not part of this model.
- `LoadTexture`, the material queries and texture hashing in `CreateMeshFromAssimp` are foreign-library calls and are not modelled.
- `renderer.c`'s GL set-up, the window and main loop, the vertex and index buffer wrappers, and `shader_inventory.c` are not part of this model.
- `src/shader_bank.h` and the other headers are declarations only, from other revisions.
- The renderer's `reload_shader_bank` loop counter is an `unsigned char`. Since `programs_count` is at most 64 it never wraps, so the model uses a plain counter.
- RendererShaderBank.ShaderBank.InitShaderBank: the `mod` and `programs` arrays are fresh Dafny arrays starting at 0, not views into the region's zeroed bytes. The slice addresses are kept and proved apart. Of the aliasing, only the one byte a terminator can write past the source buffer is modelled, as clearing the low byte of `mod[0]`.
- ModelImport.CreateMeshFromAssimp: `index_count` as a `u32` (3 * faces wrapping past 2^32) is not modelled. The mesh holds its index array's contents as a sequence, and the scratch arena used for the vertices is not modelled.
- ModelImport.ProcessAssimpNode requires the tree to hold at most as many references as the mesh array has slots. The code does not check this; InstancedMeshOutgrowsArray shows an input that overruns the array.
- ModelImport.LoadModelFromAssimp requires the path strings to fit their 512- and 256-character buffers, since the code does not check their lengths.
- ModelImport.Fnv1a requires fewer than 256 bytes, because the code as written does not terminate beyond that.
- ModelImport.FnvNotTruncated: no lemma relates the 64-bit value to the 32-bit FNV-1a of the same bytes.
- Memory.MemoryRegion.SliceRegion16 takes the capacity assert as a precondition in its non-wrapping form (`SliceFits`). The C assert adds `used + slice_size` in `size_t`, so a slice size near 2^64 wraps the sum and passes (`WrappedSlicePassesAssert`). Such sizes are excluded, because `used` would then wrap too and later slices would overlap. `SliceAssertAgrees` shows the two forms agree whenever the sum stays below 2^64. No caller passes such a size. `Valid()` keeps `buffer + buffer_size` below 2^64, so the cursor's address `buffer + used` never wraps.
- RendererShaderBank.RecordedTimeMonotone is about one row's record step (lines 80-85) only. Over a whole pass, `mod[0]` can drop when an 8192-byte file's terminator lands on it; PassRecordsMonotone states the pass-level bound and OverrunLowersRowZero exhibits the drop.
- RendererShaderBank.SecondPassIsNoOp promises that row 0 is left alone only when the first pass wrote no terminator past the buffer. Otherwise row 0 can be reloaded on every pass (RowZeroReloadsEveryPass).
- RendererShaderBank.ReloadIsolation promises nothing about `mod[0]` when the row that differs decides whether some terminator lands past the buffer (OverrunLowersRowZero).
- RendererShaderBank.FailedRowNotRetried is about one row's own record. Row 0's record can be lowered afterwards by a later row's terminator, and then row 0 is tried again.
- The terminator write onto `mod[0]` assumes a little-endian target with a 64-bit `time_t`. Other layouts of the same byte are not modelled.
- LegacyShaderBank: the `u8 *shader_src` read buffer, the `fread` and the program names are not modelled. The shader and program names GL returns are probe fields.

## Findings

| source | as written | input that shows it | evidently intended | confidence | as-written member | corrected member |
|---|---|---|---|---|---|---|
| src/shader_bank.c:63-65 | the loop guard is `programme_idx == ArrayCount(shaders.paths)`, and ArrayCount of that pointer is 0 | any call: the body runs for row 0 only, and rows 1 and 2 are never loaded | visit every row of the table | high; not executed | LegacyShaderBank.AsWrittenTouchesRowZeroOnly | LegacyShaderBank.LegacyBank.ReloadShaderBankCorrected |
| src/shader_bank.c:204-208 | a newer fragment mtime is written to `mod[programme_idx]`, the vertex slot | records (10, 20), vertex mtime 10, fragment mtime 25: every reload raises flag 2 again | write `mod[programme_idx + 1]` | high; not executed | LegacyShaderBank.ReloadNeverSettlesExample | LegacyShaderBank.ReloadCorrectedIdempotent |
| src/renderer/shader_bank.c:103-115 | the size test rejects only `file_size > 8192`, then writes `shader_src[file_size]` | a file of exactly 8192 bytes: its terminator is written to the first byte of the `mod` slice, which lowers row 0's record (OverrunLowersRowZero) | reject `file_size >= 8192` | high; not executed | RendererShaderBank.TerminatorOverrunAsWritten | RendererShaderBank.AcceptedSizeHoldsTerminator |
| src/renderer/model.c:25 | the loop counter is a `u8` compared against a `size_t` | size 256: the counter wraps from 255 to 0 and the loop never ends | a `size_t` counter | high; not executed | ModelImport.U8CounterNeverExits | ModelImport.Fnv1aWide |
| src/renderer/model.c:326 | `assert` ORs the flags with AI_SCENE_FLAGS_INCOMPLETE, which is nonzero for every flags value | flags = 1, an incomplete scene: the assert passes | `!(scene->mFlags & AI_SCENE_FLAGS_INCOMPLETE)` | high; not executed | ModelImport.IncompleteCheckAlwaysPasses | ModelImport.CorrectedCheckRejectsIncomplete |

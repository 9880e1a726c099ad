# TyrQuake material chains and WAV header reader, in Dafny

This project models two self-contained pieces of the TyrQuake engine and
proves properties of them.

**Material chains** (`include/gl_model.h`). The OpenGL renderer draws a
brush model material by material. For each frame it collects the surfaces
of every material on a *material chain*: a `materialchain_t` header that
counts the vertices and triangle-list indices its surfaces will need, links
the surfaces through their `chain` pointers, and spills into overflow
segments taken from the zone allocator once a segment would reach
`MATERIALCHAIN_MAX_VERTS` (65536) vertices. `MaterialChain_AddSurf` links
at the head, so the list reads last-in first-out. `MaterialChain_AddSurf_Tail`
links at a tail the caller holds, so the list keeps submission order, as the
transparency passes need. `ForEach_MaterialChain` walks a chain's segments
and frees every segment except the header it was given. The header also
fixes how materials are laid out: grouped by material class in a fixed
order, with `material_index` marking where each class starts, and an
animation table of at most ten frames and ten alternate frames.

**WAV header reader** (`common/snd_mem.c`). `GetWavinfo` reads the header
of a RIFF/WAVE file held in memory. It walks the RIFF chunk list for the
"RIFF" chunk of form "WAVE", then for the "fmt " chunk (PCM, format tag 1),
the "cue " chunk and a following "LIST"/"mark" loop length, and the "data"
chunk. It fills a static `wavinfo_t` with the rate, the byte width, the
channel count, the loop start, the sample count and the offset of the
sample data. The reader keeps its cursor in module-level variables
(`data_p`, `last_chunk`, `iff_data`, `iff_end`, `iff_chunk_len`) that
`GetLittleShort`, `GetLittleLong`, `FindNextChunk` and `FindChunk` move.

## Layout

- `materials.dfy` — module `Materials`: the material classes, the
  `material_index` layout and `material_animation_t`.
- `material_batch.dfy` — module `MaterialBatch`: one chain segment as a
  value. `AddFront` and `AddBack` are the two add operations. `BuildFront`
  and `BuildBack` apply them to a run of submissions. `Renderable`, `EdgeSum`
  and `IndexSum` are independent reference definitions, and the lemmas relate
  the two sides.
- `material_chains.dfy` — module `MaterialChains`: class `ChainStore`. It
  holds the header array, the `chain` link of every surface and the zone of
  live overflow segments, all updated in place. Ghost per-chain surface
  lists give the order. The store invariant `Valid()` says that each list
  is threaded through the links, holds no surface twice, and shares no
  surface with another list. AddSurf and AddSurfTail are proved against
  `MaterialBatch.AddFront` and `MaterialBatch.AddBack`, and they and the
  Link methods keep `Valid()`. MaterialChainsInit and
  MaterialChainsInitReverse state the cleared headers and establish
  `Valid()` when they clear the whole array. ForEach, Drain and Visit are
  proved against the ghost path of the overflow chain and the set of zone
  segments they free.
- `wrappers.dfy` — module `Wrappers`: the `Option` type the other modules share.
- `wav_format.dfy` — module `WavFormat`. The
  reader's arithmetic and the parse as functions over the bytes: fixed-width
  integers, C division, little-endian fields, `strncmp`, the chunk walk
  `NextChunk` and the stages of `GetWavinfo`. The lemmas are about that
  parse.
- `wav_reader.dfy` — module `WavReader`: class `Parser` with the cursor
  state as fields. Its methods run the loops and field-by-field updates of
  the C code, and each is proved equal to the `WavFormat` function for its
  stage.

Points where the C code's behaviour is undefined are **returned as an
outcome**, not excluded by a precondition. `GetWavinfo` reads several fields
at fixed offsets without checking them against the chunk or the buffer:
the form type, the fmt fields, the cue point, and the "mark" test and loop
length of the LIST chunk. It also divides by `info.width`, which is 0 for
fewer than 8 bits per sample. Where a read would leave the buffer the model
returns `Undefined(ReadPastEnd)`; for the division by zero it returns
`Undefined(DivideByZero)`. `strncmp` is modelled byte by byte and stops at
the first difference, so a comparison reaches past the end only when every
byte before the end matched. `Sys_Error` ("bad loop length") is the outcome
`BadLoopLength`.

## Model

| member | source | states |
|---|---|---|
| Materials.ClassOf | include/gl_model.h:45-61 | every material of the model lies in the range of one material class, `material_index[c] <= i < material_index[c + 1]` |
| Materials.ClassIsUnique | include/gl_model.h:174-175 | the class ranges do not overlap: a class whose range holds a material is the one ClassOf gives |
| Materials.IndexMonotone | include/gl_model.h:174-175 | a non-decreasing `material_index` is ordered between any two classes, not only neighbouring ones |
| Materials.ClassesCoverMaterials | include/gl_model.h:174-178 | the sizes of the class ranges add up to `nummaterials`, so the classes cover the materials array |
| Materials.AnimationFrames | include/gl_model.h:69-75 | the frames an animation steps through are the `numframes` in use, never more than ten, each a material of the model |
| Materials.AnimationAltFrames | include/gl_model.h:69-75 | the same for the `numalt` alternate frames |
| MaterialBatch.AddFront | include/gl_model.h:135-148 | a surface without a poly changes nothing; one that would take `numverts` to 65536 or beyond goes to the overflow handler (None), exactly then; otherwise it becomes the head, and the counters gain `numedges` and `3 * (numedges - 2)` while staying under 65536 vertices |
| MaterialBatch.Overflows | include/gl_model.h:139 | the overflow guard `numverts + numedges >= 65536`; AddFront and AddBack go to the handler exactly when it holds, and NoOverflowWithinBudget states when a run never meets it |
| MaterialBatch.Indices | include/gl_model.h:146 | the index count `(numedges - 2) * 3` of a surface's triangle fan; AddFront and AddBack raise `numindices` by it, and FrontReversesSubmissions and BackKeepsSubmissionOrder sum it as IndexSum |
| MaterialBatch.AddBack | include/gl_model.h:150-165 | as AddFront, but the surface becomes the last of the list |
| MaterialBatch.FrontReversesSubmissions | include/gl_model.h:141-146 | without an overflow, a run of AddSurf calls leaves the renderable surfaces in reverse submission order in front of what the chain held, and the counters raised by the sums of their vertices and indices |
| MaterialBatch.BackKeepsSubmissionOrder | include/gl_model.h:157-163 | without an overflow, a run of AddSurf_Tail calls leaves the renderable surfaces in submission order after what the chain held, with the same counters |
| MaterialBatch.FrontAndBackOverflowAlike | include/gl_model.h:139-146 | both add operations overflow on the same inputs and reach the same vertex count, because the guard reads only the counters |
| MaterialBatch.FrontIsBackReversed | include/gl_model.h:134-165 | from an empty chain, the two add operations give the same surfaces in opposite orders |
| MaterialBatch.NoOverflowWithinBudget | include/gl_model.h:87-93 | with non-negative edge counts, a run of submissions goes through without an overflow exactly when none has a poly or the vertex count plus all their edges stays below 65536 |
| MaterialBatch.BudgetKept | include/gl_model.h:139-146 | a segment that took at least one surface without an overflow stays strictly below 65536 vertices |
| MaterialChains.ChainStore.MaterialChainsInit | include/gl_model.h:103-107 | the headers in `[0, count)` are zeroed (counters 0, no surfaces, no overflow segments) and the rest are unchanged; clearing the whole array makes the store valid |
| MaterialChains.ChainStore.MaterialChainsInitReverse | include/gl_model.h:109-115 | as MaterialChainsInit, except that each cleared header's overflow tail refers to that header itself |
| MaterialChains.ChainStore.HandleOverflow | include/gl_model.h:132 | the handler is only declared; its contract promises only that the store stays valid, that the call is recorded with the header it leaves, and that a NULL tail stays NULL and a non-NULL one non-NULL |
| MaterialChains.ChainStore.AddSurf | include/gl_model.h:135-148 | no poly: nothing changes; overflow: the handler is called with a NULL tail, exactly then, and the header it leaves then gains the surface's vertices and indices; otherwise the chain as a value is `AddFront` of the old one (so the counters gain them too and stay under 65536), the surface is the head, its link is the old head, and no other header, link or zone segment changes |
| MaterialChains.ChainStore.AddSurfTail | include/gl_model.h:150-165 | as AddSurf with `AddBack`: the overflow handler gets the caller's tail; without an overflow the surface's link is NULL, the link the tail referred to now points at it, no other link changes, and the returned tail is the surface and the list's last |
| MaterialChains.ChainStore.LinkAtHead | include/gl_model.h:142-143 | the surface becomes the head of the list, its link the old head; the store stays valid |
| MaterialChains.ChainStore.LinkAtTail | include/gl_model.h:158-160 | the surface's link becomes NULL, the link the tail refers to points at it, no other link changes, and the surface is appended to the list and becomes the tail; the store stays valid |
| MaterialChains.ChainStore.LinkFirst | include/gl_model.h:158-160 | with the tail on an empty chain's head slot, the header's `surf` and the list become the surface alone, its link is NULL, and no other link or header changes |
| MaterialChains.ChainStore.LinkAfter | include/gl_model.h:158-160 | with the tail on the last surface, that surface's link now refers to the new one, whose link is NULL and which ends the list; no other link changes |
| MaterialChains.ChainStore.ThreadsPushFront | include/gl_model.h:142-143 | a list threaded from its head stays threaded, one longer, once the new surface links to the old head |
| MaterialChains.ChainStore.ThreadsPushBack | include/gl_model.h:158-160 | a list stays threaded, with the surface appended, once its last link points at a new surface whose own link is NULL |
| MaterialChains.ChainStore.ThreadsUntouched | include/gl_model.h:142-143 | changing the link of a surface not on a list leaves that list threaded |
| MaterialChains.ChainStore.PushFrontKeepsValid | include/gl_model.h:142-143 | a surface on no list, put in front of a list, keeps it free of repeats and disjoint from the other lists |
| MaterialChains.ChainStore.PushBackKeepsValid | include/gl_model.h:158-160 | the same for a surface appended to a list |
| MaterialChains.ChainStore.ForEach | include/gl_model.h:117-129 | the walk from the overflow tail, when set, else from the header, visits the segments of the overflow chain in order, yields each header as it was, and frees exactly the visited zone segments other than the header it was given |
| MaterialChains.ChainStore.Drain | include/gl_model.h:126-129 | the loop of the walk yields the headers along the path and frees the zone segments it visits, other than the head |
| MaterialChains.ChainStore.Visit | include/gl_model.h:127-128 | one step reads the segment and frees it (Z_Free) unless it is the head |
| MaterialChains.ChainStore.ProgressStep | include/gl_model.h:127-129 | one step of the walk keeps what it has visited and freed in line with the path, and leaves the rest of the path allocated |
| MaterialChains.ChainStore.AheadAfterFree | include/gl_model.h:128 | freeing one segment of a walk that repeats no segment leaves the segments after it allocated and unchanged |
| WavFormat.Int16 | common/snd_mem.c:202-211 | the two's-complement value of a 16-bit pattern, congruent to it modulo 2^16 |
| WavFormat.Int32 | common/snd_mem.c:213-224 | the two's-complement value of a 32-bit pattern, congruent to it modulo 2^32 |
| WavFormat.Wrap32 | common/snd_mem.c:337 | the `int` sum `loopstart + i` wrapped to 32 bits: in range and congruent to the exact sum |
| WavFormat.CDiv | common/snd_mem.c:322 | C's `/`: the magnitude is the quotient of the magnitudes, and the sign follows the operands' signs (truncation toward zero) |
| WavFormat.LittleShort | common/snd_mem.c:202-211 | `b0 + 256 * b1` read as a signed 16-bit value |
| WavFormat.LittleLong | common/snd_mem.c:213-224 | `b0 + 2^8 b1 + 2^16 b2 + 2^24 b3` read as a signed 32-bit value |
| WavFormat.ShortRoundTrip | common/snd_mem.c:202-211 | reading back the little-endian encoding of any 16-bit value gives that value |
| WavFormat.LongRoundTrip | common/snd_mem.c:213-224 | reading back the little-endian encoding of any 32-bit value gives that value |
| WavFormat.CompareAt | common/snd_mem.c:246 | `strncmp` against a 4-byte id: Same exactly when the bytes are in the buffer and equal the id; Overrun exactly when the buffer ends before the id and every byte up to its end matched |
| WavFormat.PadEven | common/snd_mem.c:244 | `(len + 1) & ~1` is even and at most one more than `len` |
| WavFormat.ChunkEnd | common/snd_mem.c:244 | the next header starts at least 8 bytes after this one, past the body and its pad byte |
| WavFormat.NextChunk | common/snd_mem.c:226-249 | on success the cursor is at a header at or after `last_chunk` that carries the id and declares a length in range, with `last_chunk` after its padded body and `iff_chunk_len` its length; NULL only with fewer than 9 bytes left at a header, or at a header whose length is negative or longer than the rest |
| WavFormat.NextChunkFindsFirst | common/snd_mem.c:226-249 | the walk finds the first well-formed chunk ahead that carries the id, and comes back NULL exactly when there is none |
| WavFormat.NextChunkIgnoresChunkLen | common/snd_mem.c:236-244 | the `iff_chunk_len` left over from a previous walk affects neither the cursor nor `last_chunk` |
| WavFormat.ReadFmt | common/snd_mem.c:307-322 | when the fmt stage lets parsing go on, loop start, sample count and data offset are still 0 |
| WavFormat.ReadCue | common/snd_mem.c:324-341 | the cue stage changes only the loop start and the sample count |
| WavFormat.ReadMark | common/snd_mem.c:330-339 | the LIST stage changes only the sample count; MarkSetsSamples and NoMarkKeepsSamples state the count |
| WavFormat.MarkCount | common/snd_mem.c:334-337 | the count a "mark" sets, the loop start plus the 32-bit value 24 bytes past the LIST header, wrapped to 32 bits; its value in the parse is stated by MarkSetsSamples and CueSamples |
| WavFormat.MarkSetsSamples | common/snd_mem.c:334-338 | with "mark" 28 bytes past the LIST header, the stage goes on with the sample count set to MarkCount and nothing else changed |
| WavFormat.NoMarkKeepsSamples | common/snd_mem.c:332-339 | with no LIST chunk, or no "mark" in it, a stage that goes on keeps its info, the sample count included |
| WavFormat.CueSamples | common/snd_mem.c:324-341 | without a "cue " chunk the sample count is unchanged; with one at `c`, if the first LIST chunk found by walking on from its end has "mark" 28 bytes past its header, the count is the wrapped sum of the 32-bit values at `c + 32` and 24 bytes past that header, and otherwise it is unchanged |
| WavFormat.Wavinfo | common/snd_mem.c:281-362 | GetWavinfo as a function of the buffer (None for NULL); stated by ZeroInfoCases, InfoComesFromPcmFmt, LoopStartFromCue, CueSamples, DataChunkResult and SampleDataInBuffer, and matched by WavReader.Parser.GetWavinfo |
| WavFormat.ParseWav | common/snd_mem.c:289-304 | the RIFF/WAVE test before the chunks; stated by ZeroInfoCases and ParseWavReachesBody |
| WavFormat.ReadBody | common/snd_mem.c:303-361 | the fmt, cue and data stages in turn; stated by FmtZeroCases, BodyKeepsFmt and BodyFmtFields |
| WavFormat.ReadData | common/snd_mem.c:343-361 | the data stage; stated by DataChunkResult (the Sys_Error, `dataofs`, the sample count) and ReadDataKeepsFmt (the fields it keeps) |
| WavFormat.ZeroInfoCases | common/snd_mem.c:289-302 | a NULL buffer, a missing RIFF chunk, and a form type other than "WAVE" give the all-zero wavinfo_t |
| WavFormat.FmtZeroCases | common/snd_mem.c:307-317 | the fmt stage ends with the all-zero wavinfo_t exactly when there is no "fmt " chunk or its format tag is not 1; the parse then returns it |
| WavFormat.ParseWavReachesBody | common/snd_mem.c:297-304 | an outcome other than the all-zero info comes from the chunks after a "RIFF" header of form "WAVE" |
| WavFormat.InfoComesFromPcmFmt | common/snd_mem.c:297-322 | a non-zero wavinfo_t comes from a RIFF/WAVE file whose first "fmt " chunk has format tag 1; channels, rate and width are read 10, 12 and 22 bytes past that chunk's header |
| WavFormat.BodyKeepsFmt | common/snd_mem.c:303-361 | a non-zero outcome passed the fmt stage and keeps its channels, rate and width |
| WavFormat.FmtFields | common/snd_mem.c:307-322 | when the fmt stage goes on, the chunk lies in the buffer, its tag is 1, and the fields are read at their offsets |
| WavFormat.LoopStartFromCue | common/snd_mem.c:324-341 | with no "cue " chunk the loop start is -1; with one it is the 32-bit value 32 bytes past the chunk's header |
| WavFormat.ReadDataKeepsFmt | common/snd_mem.c:343-361 | the data stage keeps rate, width, channels and loop start, and a sample count set by a "mark" |
| WavFormat.DataChunkResult | common/snd_mem.c:343-361 | with a data chunk: its length is non-negative and fits the buffer; the Sys_Error happens exactly when a "mark" set a sample count larger than length / width; otherwise `dataofs` is where its body starts and the sample count is the mark's, or length / width, and never more than length / width |
| WavFormat.SampleDataInBuffer | common/snd_mem.c:343-361 | the sample data a caller reads, `samples * width` bytes from `dataofs`, lies within the buffer when the width is positive and the count not negative |
| WavReader.Parser.constructor | common/snd_mem.c:195-199 | the static cursor state and the static wavinfo_t start out zeroed |
| WavReader.Parser.GetLittleShort | common/snd_mem.c:202-211 | returns the signed 16-bit little-endian value at the cursor and moves the cursor by exactly 2 |
| WavReader.Parser.GetLittleLong | common/snd_mem.c:213-224 | returns the signed 32-bit little-endian value at the cursor and moves the cursor by exactly 4 |
| WavReader.Parser.FindNextChunk | common/snd_mem.c:226-249 | the loop leaves `data_p`, `last_chunk` and `iff_chunk_len` as NextChunk gives them from the old `last_chunk` |
| WavReader.Parser.FindChunk | common/snd_mem.c:251-256 | the walk restarted at `iff_data` |
| WavReader.Parser.GetWavinfo | common/snd_mem.c:281-362 | the outcome is that of the parse, Wavinfo, and on success the static info holds the returned wavinfo_t |
| WavReader.Parser.ReadChunks | common/snd_mem.c:303-361 | the fmt, cue and data stages run in turn on a zeroed info give the parse of the chunks after the RIFF header |
| WavReader.Parser.ReadFmtChunk | common/snd_mem.c:307-322 | the field-by-field fmt stage gives ReadFmt and leaves the info it describes |
| WavReader.Parser.ReadCueChunk | common/snd_mem.c:324-341 | the cue stage gives ReadCue |
| WavReader.Parser.ReadCuePoint | common/snd_mem.c:327-338 | with the cursor on a "cue " chunk, reads the loop start 32 bytes past its header, walks on to the next "LIST" chunk and gives ReadMark there |
| WavReader.Parser.ReadMarkChunk | common/snd_mem.c:330-339 | the LIST stage gives ReadMark |
| WavReader.Parser.ReadDataChunk | common/snd_mem.c:343-361 | the data stage gives ReadData |

## Left out

- Undefined behaviour is returned as the outcome `Undefined`, not ruled
  out by `requires`. This covers reads past the end of the buffer and the
  division by a width of 0. The division `INT_MIN / -1` cannot happen,
  because the data length was checked to be non-negative
  (WavFormat.DataChunkResult).
- `wavlength` is the length of the byte sequence (`iff_end` is its end).
  The walk may step one byte past the end through the pad byte; the model
  compares offsets, not C pointers.
- Signed `int` overflow in `loopstart + i` and the `<< 24` of
  `GetLittleLong` are taken to wrap to 32 bits, as the compilers the engine
  targets do.
- The `materialchain_t` counters (`int32_t`) are unbounded integers. Without
  the overflow handler's body, nothing bounds how far they grow.
- MaterialChains.ChainStore.HandleOverflow: its body is not part of this
  model (only its declaration is). The method changes no header, link or
  zone segment and only records the call. Its contract promises only
  validity, the call record (with the header it leaves), and that a NULL
  tail stays NULL and a non-NULL one non-NULL. So the overflow branches of
  AddSurf and AddSurfTail say nothing about where the surface ends up.
- MaterialChains.ChainStore.AddSurf: on an overflow it states the handler
  call and that the header the handler left gains the surface's vertices
  and indices, nothing more. The order of surfaces across overflow
  segments, and the surface lists of overflow segments, are not tracked.
- MaterialChains.ChainStore.AddSurfTail: same as AddSurf; the tail the
  handler returns is not described. The caller's `*tail` is modelled as
  the head slot of an empty chain or the last surface of the list
  (`Tail`); how callers set it up is not part of this model.
- MaterialChains.ChainStore.ForEach: the overflow chain is given as a ghost
  path with no repeats. A cyclic or dangling chain is excluded by the
  precondition rather than modelled.
- Z_Free is the removal of a segment from the map of live zone segments.
  `Z_Malloc` and the zone allocator are not part of this model.
- Animation resolution (`frames[frame mod numframes]`) and
  `GL_BuildMaterials`, which fills `material_index`, are only declared or
  not shown. The model states the invariants of what they produce.
- The lightmap blocks (`lm_block_t`, `glRect_t`), `surface_material_t`,
  `glbrushmodel_resource_t`, the `glbrushmodel_t` fields other than
  `material_index`, `nummaterials`, the animations and the material chains,
  `GLuint` handles, `container_of` and `litheader_t` carry no logic to
  model.
- `ResampleSfx`, `S_InitRamp` (floating point), `S_LoadSound` (file
  loading, cache) and the disabled `DumpChunks` are not modelled, nor the
  `Con_DPrintf` messages. common/sdl_common.c is not part of this model.
- With no "data" chunk, GetWavinfo returns the info as filled so far
  (channels, rate, width, loop start, and the sample count a "mark" set),
  not a zeroed one. The model follows
  the code here.

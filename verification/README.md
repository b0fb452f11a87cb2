# OpenMfx remote proxy: a verified model

OpenMfxRemoteProxy runs an OpenMfx plugin in a second process. Host threads call actions on proxy instances;
each call travels as a message through a plugin broker, a PAIR link, a host broker and a host instance, and the
reply travels back. The messages are FlatBuffers, built and read by the serialisation engine that is committed
under `include/flatbuffers` together with its schemaless sibling FlexBuffers. This project models these parts
and proves what they promise, over every input, every run of a builder and every interleaving of the protocol.

## The parts

**FlatBuffers.** `VectorDownwardClass` is the array with two opposed stacks. `FlatBufferBuilderClass` is the builder
on top of it: the scratch stack holds the bytes of vtable offsets and field locations, vtables are filled in and
patched in place, a vtable that is already known is popped again. Each method is proved against the function of the
same name in `FlatBuilder`, where a builder is a value. `FlatReader` has the accessors of a finished buffer, with an
explicit outcome for any read that leaves it. `FlatLayout`, `FlatObjects`, `FlatTables` and `FlatFields` say what it
means that bytes hold an object and show that every operation leaves such bytes; `FlatRun` and `FlatRoundTrip` lift
this to whole runs, `FlatFinish` to the finished buffer, `FlatRunClass` back to the object and its array. `FlatSizes`
is about what the entries of vtables, the alignment and the length of a buffer say, `FlatLimits` about when a run is
too large. `PaddingMask` ties the padding of the model to the bit expression of the source. `FlatDedup`,
`FlatDedupFits`, `FlatVTables` and `FlatPool` are about sharing, `VectorRunClass` about whole runs on the array.
`FlatVerifier` is the verifier for an arbitrary schema, given as data; `FlatVerifierClass` is the object with its two
counters; `FlatVerifierSound` and `FlatVerifierComplete` show that it accepts only what is safe to read and what the
builder makes, `FlatVerifierExact` exactly what it accepts on any bytes, `FlatVerifierLimits` how it counts.
`FlatBufferStart` finds the front of a buffer from its root.

**The protocol.** `ProxyMessage` is the text framing of the Python mock-up, `Json` the payload in it, `MfxMessage` the
binary framing of the C++ side. `ProxyProtocol` is the step relation of threads, mutexes, brokers, links and host
instances; `ProxyNet`, `ProxyCalls` and `ProxyRuns` prove its invariant and what follows for every run,
`ProxyProgress` that calls are answered, `ProxyLimit` up to how many instances all this holds.

**Text.** `Utf8` is the UTF-8 codec, on bit-vectors, `Utf8Table` its table of lengths. `EscapeJson` is the JSON string
writer, next to a reader written after section 7 of RFC 8259, `EscapeBytes` the writer when ill-formed bytes are allowed.

**FlexBuffers.** `FlexBuilder` has the builder's operations on values, `FlexBuilderClass` the object that keeps
buffer, stack and pools in its fields. `FlexReader` has the accessors. `FlexWidths` is about the choice of widths,
`FlexValues`, `FlexVectors`, `FlexFixed`, `FlexMaps` and `FlexPools` about what single operations leave, `FlexRun`
about runs and the round trip, `FlexTrees` about which values can be built, `FlexUnique` about reading one value only,
`FlexTypes` about the type bytes as numbers, `FlexNarrow` about widths and places being no larger than needed,
`FlexRunClass` about runs on the object, `FlexSharing` about pooling and map lookup.

## Results that correct or bound the documentation

- Prefix routing in the Python mock-up is exact only while ids have at most eight digits; `ProxyMessage.RoutingFails`
  names two ids that collide, `ProxyMessage.RoutedExcept` says exactly which do. `ProxyLimit.AnswersExactly` says what
  follows for calls: with one instance more than a hundred million, one can return with another's reply.
- Sharing vtables never makes a buffer longer, but it can make a run fail: a table that comes to lie elsewhere may be
  padded beyond the size that its vtable can hold. `FlatDedupFits.DedupTooLarge` is an input, `FlatDedupFits.DedupFits`
  the exact condition, `FlatDedupFits.RoomyFits` one that a caller can check beforehand.
- `EscapeString` with `natural_utf8` writes control characters that have no short escape as they are, which is not
  JSON: `EscapeJson.NaturalFails` is an input, `EscapeJson.NaturalCorrect` the exact condition.

## Model

| member | source | states |
|---|---|---|
| FlatFinish.RoundTrip | include/flatbuffers/flatbuffer_builder.h:1125-1140 | Whatever strings, vectors, offset vectors and tables were built and finished, with or without default elision, vtable sharing, identifier and size prefix, every accessor chain from `GetRoot` finds exactly the objects described: field values, defaults for elided fields, null for unset offsets, absent ids absent. |
| FlatRoundTrip.RunHolds | include/flatbuffers/flatbuffer_builder.h:273-420 | In every run no assertion of the builder but one on size can fail, and all objects made so far still stand in the buffer at their offsets, whatever was written in front of them. |
| FlatRoundTrip.BuildOneHolds | include/flatbuffers/flatbuffer_builder.h:333-420 | One more object on top of others: it stands, the others still do, and the builder is ready for the next. |
| FlatFields.EndTableHolds | include/flatbuffers/flatbuffer_builder.h:358-420 | Closing a table leaves a table with exactly the added fields, whether its vtable is a new one or an old one further back, and says which vtable was chosen; the vtable ends behind the largest id that has a field, and its second entry is the size of the table. |
| FlatSizes.VTableSizeIs | include/flatbuffers/flatbuffer_builder.h:367-378 | In terms of the reader: the first entry of a vtable is 4 when no field is stored, otherwise 2 more than the largest id that is. |
| FlatSizes.FinishedVTables | include/flatbuffers/flatbuffer_builder.h:367-378 | So it is in finished buffers, for every table a run has made. |
| FlatSizes.RunTableSizes | include/flatbuffers/flatbuffer_builder.h:373-378 | The second entry is what the table takes from where it was begun to the end of its fields, and that number follows from the place and the fields alone. |
| FlatSizes.FinishedTableSize | include/flatbuffers/flatbuffer_builder.h:373-378 | So it is in finished buffers. |
| FlatSizes.RunMinalign | include/flatbuffers/flatbuffer_builder.h:249-251 | `minalign` is the largest alignment of anything a run has stored, and 1 before that. |
| FlatSizes.FinishedSize | include/flatbuffers/flatbuffer_builder.h:1125-1140 | A finished buffer is padded to the next multiple of that alignment and no further. |
| FlatSizes.StringTight | include/flatbuffers/flatbuffer_builder.h:461-468 | A string takes its length, its characters, the NUL and less than four bytes of padding. |
| FlatSizes.VectorTight | include/flatbuffers/flatbuffer_builder.h:587-651 | A scalar vector is padded no more than its elements and its length need. |
| FlatSizes.OffsetsTight | include/flatbuffers/flatbuffer_builder.h:675-679 | The same for a vector of offsets. |
| FlatLimits.RunExact | include/flatbuffers/flatbuffer_builder.h:273-420 | A run goes through if and only if at each step the buffer stays below 2^31 - 1 bytes and a table below 2^16, both computed from the sizes of what is stored. |
| FlatLimits.BuildOneExact | include/flatbuffers/flatbuffer_builder.h:273-420 | One object: the same. |
| FlatFields.AddElementIn | include/flatbuffers/flatbuffer_builder.h:295-299 | A scalar equal to its default is elided, any other is stored aligned and tracked; either way it becomes a field of the open table and the fields before it stay. |
| FlatFields.AddOffsetIn | include/flatbuffers/flatbuffer_builder.h:305-308 | The distance stored for an object leads back to that object. |
| FlatFields.AddOffsetPushes | include/flatbuffers/flatbuffer_builder.h:305-331 | `ReferTo` is at least 4, so the offset of an object is never mistaken for the default 0 and is always stored. |
| FlatFields.AddStructIn | include/flatbuffers/flatbuffer_builder.h:310-315 | A struct is stored with its alignment and its bytes and becomes a field. |
| FlatTables.FillVTableAt | include/flatbuffers/flatbuffer_builder.h:379-388 | After the field loop the entry of an id is the distance of the field with that id, and zero if there is none. |
| FlatTables.FieldOffsetOf | include/flatbuffers/table.h:35-43 | A reader finds each field where it was written and nothing for any other id, also for ids beyond the vtable. |
| FlatObjects.StringHolds | include/flatbuffers/flatbuffer_builder.h:461-468 | Length, characters, NUL and alignment of a string. |
| FlatObjects.VectorHolds | include/flatbuffers/flatbuffer_builder.h:631-651 | Length and elements of a scalar vector stand without a gap, the elements aligned to their size when there are any. |
| FlatObjects.OffsetsHold | include/flatbuffers/flatbuffer_builder.h:675-679 | A vector of offsets, pushed from last to first, leads to the given objects in their order. |
| FlatLayout.HoldsShift | include/flatbuffers/flatbuffer_builder.h:263-283 | An object keeps its meaning when bytes are put in front of the buffer. |
| FlatFinish.HoldsReads | include/flatbuffers/table.h:45-64 | The accessors return from a laid-out object what the object says: `GetField`, `GetPointer`, `GetStruct`, vector sizes and elements, string bytes up to the NUL. |
| FlatFinish.VectorReads | include/flatbuffers/vector.h:163-176 | Size and elements of a scalar vector as written. |
| FlatFinish.HoldsRefReads | include/flatbuffers/buffer.h:85-97 | Following a stored offset leads to the object it was stored for. |
| FlatReader.FieldOffsetShift | include/flatbuffers/table.h:35-43 | Looking a field up gives the same answer when the buffer has grown at its front. |
| FlatReader.DerefShift | include/flatbuffers/buffer.h:89-92 | Following an offset leads to the same object when the buffer has grown at its front. |
| FlatFinish.FinishRoot | include/flatbuffers/flatbuffer_builder.h:1125-1140 | Root offset, identifier and size prefix of a finished buffer read as what they are, with the objects untouched behind them. |
| FlatFinish.FinishLength | include/flatbuffers/flatbuffer_builder.h:1129-1131 | The length of a finished buffer is the next multiple of the largest alignment asked for. |
| FlatFinish.FinishedAligned | include/flatbuffers/flatbuffer_builder.h:446-450 | In a finished buffer every scalar, struct, length, offset and first vector element that can be reached from the root starts at a multiple of its alignment counted from the front. |
| FlatDedup.DedupKeepsMeaning | include/flatbuffers/flatbuffer_builder.h:389-406 | The same run with and without vtable sharing reads back as the same tree, and the buffer with sharing is never longer. |
| FlatDedup.RunNoLonger | include/flatbuffers/flatbuffer_builder.h:389-408 | That comparison at every point of a run: lengths, alignments, open fields and string pools. |
| FlatDedupFits.DedupFits | include/flatbuffers/flatbuffer_builder.h:373-375 | A run that goes through without sharing vtables goes through with it if and only if no table, where it then comes to lie, exceeds the size asserted; the size is computed from the position and the fields alone. |
| FlatDedupFits.DedupFinishes | include/flatbuffers/flatbuffer_builder.h:1125-1140 | Then the buffer with shared vtables can also be finished, and is no longer than the other. |
| FlatDedupFits.RoomyFits | include/flatbuffers/flatbuffer_builder.h:373-375 | Tables whose fields and alignments sum to less than that size meet the condition wherever they lie. |
| FlatDedupFits.DedupTooLarge | include/flatbuffers/flatbuffer_builder.h:373-375 | A run of three tables that goes through without sharing and fails with it, since the last table is padded differently. |
| FlatDedup.SharingKeepsMeaning | include/flatbuffers/flatbuffer_builder.h:524-542 | Replacing shared strings by ordinary ones in a run changes nothing that is read back. |
| FlatVTables.RunListsVTables | include/flatbuffers/flatbuffer_builder.h:389-416 | Between objects the scratch stack lists exactly the vtables that tables refer to and, with sharing on, no two of them have equal bytes. |
| FlatPool.NeitherLess | include/flatbuffers/buffer.h:60-65 | The order of the string pool identifies two strings exactly when they have the same bytes. |
| FlatPool.FindStringFinds | include/flatbuffers/flatbuffer_builder.h:532-538 | The pool finds an offset with the same characters, or there is none. |
| FlatPool.SharedStringHolds | include/flatbuffers/flatbuffer_builder.h:524-542 | A shared string stands at the offset returned, and every pooled offset keeps denoting its string although the fresh copy is taken back. |
| FlatPool.SharedStringAgain | include/flatbuffers/flatbuffer_builder.h:531-541 | One call: a string that the pool has gets its pooled offset, and the buffer is as before. |
| FlatDedup.EqualSharedStrings | include/flatbuffers/flatbuffer_builder.h:524-542 | In every run all calls that make one shared string return one offset, whatever was built between them, and only the first adds to the buffer. |
| Bytes.PaddingBytes | include/flatbuffers/base.h:448-450 | The number of bytes below the alignment that makes a size a multiple of it. |
| PaddingMask.PaddingBits | include/flatbuffers/base.h:448-450 | For every 64-bit size and every alignment the complement-and-mask expression of the source is this number. |
| VectorDownwardClass.VectorDownward.constructor | include/flatbuffers/vector_downward.h:36-46 | Both stacks start empty. |
| VectorDownwardClass.VectorDownward.LargerCapacity | include/flatbuffers/vector_downward.h:257-259 | The new capacity has room for the bytes asked for and is a multiple of the minimum alignment. |
| VectorDownwardClass.VectorDownward.Reallocate | include/flatbuffers/vector_downward.h:253-268 | Moving keeps both contents and leaves at least `len` free bytes. |
| VectorDownwardClass.MemcpyDownward | include/flatbuffers/allocator.h:57-63 | Both ends in use reach the ends of the new array. |
| VectorDownwardClass.VectorDownward.EnsureSpace | include/flatbuffers/vector_downward.h:137-144 | Room for `len` bytes with both contents kept. |
| VectorDownwardClass.VectorDownward.MakeSpace | include/flatbuffers/vector_downward.h:146-153 | The buffer grows at its front, the scratch stack stays. |
| VectorDownwardClass.VectorDownward.Push | include/flatbuffers/vector_downward.h:183-191 | Pushes on one stack, the other unchanged. |
| VectorDownwardClass.VectorDownward.Fill | include/flatbuffers/vector_downward.h:201-210 | Pushes zeros, the scratch stack unchanged. |
| VectorDownwardClass.VectorDownward.Pop | include/flatbuffers/vector_downward.h:212-215 | Takes bytes off the front of the buffer, the scratch stack unchanged. |
| VectorDownwardClass.VectorDownward.ScratchPush | include/flatbuffers/vector_downward.h:193-197 | Pushes on the scratch stack, the buffer unchanged even when the array moves. |
| VectorDownwardClass.VectorDownward.ScratchPop | include/flatbuffers/vector_downward.h:217 | Pops the scratch stack, the buffer unchanged. |
| VectorDownwardClass.VectorDownward.ClearScratch | include/flatbuffers/vector_downward.h:97 | Empties the scratch stack, the buffer unchanged. |
| VectorDownwardClass.VectorDownward.DataAt | include/flatbuffers/vector_downward.h:181 | An offset denotes the same bytes of the buffer wherever the array has moved. |
| VectorRunClass.ApplyAll | include/flatbuffers/vector_downward.h:183-217 | Any calls on both stacks in any order leave at either end what the calls on that stack alone would leave in a sequence of its own. |
| VectorRunClass.Independent | include/flatbuffers/vector_downward.h:183-217 | What becomes of one stack does not depend on the calls on the other. |
| FlatBufferBuilderClass.FlatBufferBuilder.constructor | include/flatbuffers/flatbuffer_builder.h:84-98 | The empty builder, sharing vtables and eliding defaults. |
| FlatBufferBuilderClass.FlatBufferBuilder.ForceDefaults | include/flatbuffers/flatbuffer_builder.h:240 | Sets whether defaults are stored, nothing else. |
| FlatBufferBuilderClass.FlatBufferBuilder.DedupVTables | include/flatbuffers/flatbuffer_builder.h:244 | Sets whether vtables are shared, nothing else. |
| FlatBufferBuilderClass.FlatBufferBuilder.Pad | include/flatbuffers/flatbuffer_builder.h:247 | Zeros in front of the buffer and nothing else changed. |
| FlatBufferBuilderClass.FlatBufferBuilder.TrackMinAlign | include/flatbuffers/flatbuffer_builder.h:249-251 | The largest alignment so far. |
| FlatBufferBuilderClass.FlatBufferBuilder.Align | include/flatbuffers/flatbuffer_builder.h:253-256 | The array and fields after the call are those of `FlatBuilder.Align`. |
| FlatBufferBuilderClass.FlatBufferBuilder.PreAlign | include/flatbuffers/flatbuffer_builder.h:446-450 | The same for `FlatBuilder.PreAlign`. |
| FlatBufferBuilderClass.FlatBufferBuilder.PushBytes | include/flatbuffers/flatbuffer_builder.h:263 | The bytes in front of the buffer and nothing else changed. |
| FlatBufferBuilderClass.FlatBufferBuilder.PopBytes | include/flatbuffers/flatbuffer_builder.h:265 | The bytes at the front are gone and the rest, open fields included, is as it was before they were pushed. |
| FlatBufferBuilderClass.FlatBufferBuilder.PushElement | include/flatbuffers/flatbuffer_builder.h:273-278 | The array and fields after the call are those of `FlatBuilder.PushElement`; returns the offset of the element. |
| FlatBufferBuilderClass.FlatBufferBuilder.PushOffset | include/flatbuffers/flatbuffer_builder.h:280-283 | The same for an offset turned into a distance. |
| FlatBufferBuilderClass.FlatBufferBuilder.ReferTo | include/flatbuffers/flatbuffer_builder.h:324-331 | The distance from the place of the next offset to the object. |
| FlatBufferBuilderClass.FlatBufferBuilder.TrackField | include/flatbuffers/flatbuffer_builder.h:287-292 | One field location more on the scratch stack, the largest id updated. |
| FlatBufferBuilderClass.FlatBufferBuilder.AddElement | include/flatbuffers/flatbuffer_builder.h:295-299 | The array and fields after the call are those of `FlatBuilder.AddElement`. |
| FlatBufferBuilderClass.FlatBufferBuilder.AddOffset | include/flatbuffers/flatbuffer_builder.h:305-308 | The same for `FlatBuilder.AddOffset`, the null offset included. |
| FlatBufferBuilderClass.FlatBufferBuilder.AddStruct | include/flatbuffers/flatbuffer_builder.h:310-315 | The array and fields after the call are those of `FlatBuilder.AddStruct`; a null pointer changes nothing. |
| FlatBufferBuilderClass.FlatBufferBuilder.StartTable | include/flatbuffers/flatbuffer_builder.h:349-353 | Marks the builder as nested and returns the size of the buffer. |
| FlatBufferBuilderClass.FlatBufferBuilder.ClearOffsets | include/flatbuffers/flatbuffer_builder.h:438-442 | Drops exactly the field locations from the scratch stack; the vtables below them stay. |
| FlatBufferBuilderClass.FlatBufferBuilder.WriteVTable | include/flatbuffers/flatbuffer_builder.h:363-389 | Place for the distance and a filled-in vtable in front of the fields. |
| FlatBufferBuilderClass.FlatBufferBuilder.FillEntries | include/flatbuffers/flatbuffer_builder.h:379-388 | The loop over the scratch stack writes one entry per field; each entry was still zero, so the assertion holds. |
| FlatBufferBuilderClass.FlatBufferBuilder.FindKnown | include/flatbuffers/flatbuffer_builder.h:395-406 | The first listed vtable with the size and bytes of the new one, if there is any. |
| FlatBufferBuilderClass.FlatBufferBuilder.Deduplicate | include/flatbuffers/flatbuffer_builder.h:390-406 | Takes the new vtable back exactly when a known one has its bytes, and returns the one to use. |
| FlatBufferBuilderClass.FlatBufferBuilder.LinkVTable | include/flatbuffers/flatbuffer_builder.h:407-418 | Lists the vtable if it is new and patches the signed distance in place. |
| FlatBufferBuilderClass.FlatBufferBuilder.EndTable | include/flatbuffers/flatbuffer_builder.h:358-420 | All of these together are `FlatBuilder.EndTable`; returns the offset of the table. |
| FlatBufferBuilderClass.FlatBufferBuilder.CreateString | include/flatbuffers/flatbuffer_builder.h:461-468 | The array and fields after the call are those of `FlatBuilder.CreateString`; returns the offset. |
| FlatBufferBuilderClass.FlatBufferBuilder.CreateSharedString | include/flatbuffers/flatbuffer_builder.h:524-542 | The array, fields, pool and offset are those of `FlatBuilder.CreateSharedString`. |
| FlatBufferBuilderClass.FlatBufferBuilder.ShareString | include/flatbuffers/flatbuffer_builder.h:532-541 | Pops the string just written if the pool has it, and pools it if not. |
| FlatBufferBuilderClass.FlatBufferBuilder.StartVector | include/flatbuffers/flatbuffer_builder.h:593-598 | For any element size and alignment the array and fields after the call are those of `FlatBuilder.StartVectorOf` for the size of all elements. |
| FlatBufferBuilderClass.FlatBufferBuilder.StartScalars | include/flatbuffers/flatbuffer_builder.h:600-602 | The same for a scalar type, aligned to its size. |
| FlatBufferBuilderClass.FlatBufferBuilder.EndVector | include/flatbuffers/flatbuffer_builder.h:587-591 | The length in front of the elements, no longer nested. |
| FlatBufferBuilderClass.FlatBufferBuilder.CreateVector | include/flatbuffers/flatbuffer_builder.h:631-651 | The array and fields after the call are those of `FlatBuilder.CreateVector`, the empty vector included. |
| FlatBufferBuilderClass.FlatBufferBuilder.CreateOffsets | include/flatbuffers/flatbuffer_builder.h:675-679 | The loop from last to first is `FlatBuilder.CreateOffsets`. |
| FlatBufferBuilderClass.FlatBufferBuilder.Finish | include/flatbuffers/flatbuffer_builder.h:1125-1140 | The array and fields after the call are those of `FlatBuilder.Finish`. |
| FlatRunClass.Execute | include/flatbuffers/flatbuffer_builder.h:273-420 | A whole run on the builder object leaves the array, fields and offsets of the run on values. |
| FlatRunClass.Build | include/flatbuffers/flatbuffer_builder.h:1125-1140 | Building and finishing on the object: a reader of the used part of its array finds the object described. |
| FlatVerifierSound.VerifierSound | include/flatbuffers/verifier.h:193-245 | If the verifier accepts any bytes at all for a schema, every chain of accessor calls from the root stays inside them: vtable lookups, fields, pointers, vector elements, string bytes up to the NUL. |
| FlatVerifierSound.AccessSound | include/flatbuffers/table.h:115-143 | One accessor call on something accepted stays inside and leads to something accepted. |
| FlatVerifierSound.FollowSound | include/flatbuffers/reflection_generated.h:361-375 | The same for chains of any length. |
| FlatVerifierSound.BufferSafe | include/flatbuffers/verifier.h:174-215 | On any bytes the verifier reaches a verdict without itself reading outside of them. |
| FlatVerifierSound.TableStartSound | include/flatbuffers/verifier.h:174-190 | An accepted table start has its vtable inside the buffer, although the vtable is found with wrapping 64-bit arithmetic. |
| FlatVerifierSound.VectorSound | include/flatbuffers/verifier.h:137-151 | An accepted vector lies inside the buffer with all its elements; the multiplication cannot overflow. |
| FlatVerifierSound.StringSound | include/flatbuffers/verifier.h:128-134 | An accepted string is followed by a NUL inside the buffer. |
| FlatVerifierSound.BufferCounted | include/flatbuffers/verifier.h:268-278 | On any bytes and from any counters within the limits: acceptance leaves the depth where it was and has visited at most `max_tables` tables; a rejection comes at the latest one table beyond. |
| FlatVerifierSound.TableCounted | include/flatbuffers/verifier.h:268-278 | The same for every table inside, so that the number of visits is bounded although tables can be reached more than once. |
| FlatVerifier.VerifyOffset | include/flatbuffers/verifier.h:247-258 | A non-zero answer is an offset that can be followed and leads into the buffer. |
| FlatVerifierComplete.VerifierComplete | include/flatbuffers/verifier.h:193-245 | A finished builder buffer whose tables are of the types in the schema is accepted, alignment checks included, if and only if no required field is missing in it and the nesting and the number of tables keep within the limits beside what the verifier has counted before; the depth is then as before and the count has grown by that number. |
| FlatVerifierComplete.TableComplete | include/flatbuffers/verifier.h:174-190 | The same for every table of the buffer. |
| FlatVerifierComplete.PointerComplete | include/flatbuffers/table.h:134-143 | A stored offset passes its check and leads to its object. |
| FlatVerifierComplete.StringComplete | include/flatbuffers/verifier.h:128-134 | A string the builder wrote passes, its NUL included. |
| FlatVerifierExact.BufferExact | include/flatbuffers/verifier.h:193-245 | On any bytes: the verifier accepts only what is well formed, which means length prefix, identifier, offsets, vtables, fields, vectors and strings in range and aligned and required fields present, and within the limits everything that is. |
| FlatVerifierExact.TableExact | include/flatbuffers/verifier.h:174-190 | The same for a table anywhere in the bytes, with what is counted. |
| FlatVerifierExact.RequiredSet | include/flatbuffers/table.h:134-143 | If a buffer is accepted, every required field of every table that accessor calls reach from its root is set. |
| FlatVerifierExact.ReachedAligned | include/flatbuffers/verifier.h:84-101 | With alignment checked, every table, vtable, scalar, struct, offset, string and vector length so reached is aligned. |
| FlatVerifierExact.HeaderRight | include/flatbuffers/verifier.h:193-245 | An accepted identifier and length prefix are those in the buffer. |
| FlatVerifierExact.IdentExact | include/flatbuffers/buffer.h:120-128 | The comparison of identifiers is that of the first four characters, up to the end of the shorter string. |
| FlatVerifierClass.Verifier.EnterTable | include/flatbuffers/verifier.h:268-272 | Counts a table and its depth in 32 bits and compares with the limits. |
| FlatVerifierClass.Verifier.LeaveTable | include/flatbuffers/verifier.h:275-278 | Takes the depth back. |
| FlatVerifierClass.Verifier.StartTable | include/flatbuffers/verifier.h:174-190 | Verdict and counters of `FlatVerifier.VerifyTableStart`. |
| FlatVerifierClass.Verifier.VectorOfStrings | include/flatbuffers/verifier.h:154-161 | The loop over the elements is the verdict on all of them; no read leaves the buffer. |
| FlatVerifierClass.Verifier.VectorOfTables | include/flatbuffers/verifier.h:164-172 | The same with the counters it changes. |
| FlatVerifierClass.Verifier.TableOf | include/flatbuffers/reflection_generated.h:361-375 | Start, fields in their order and end of a table, with verdict and counters. |
| FlatVerifierClass.Verifier.FieldOf | include/flatbuffers/table.h:115-143 | The check of one field by its kind, required or not. |
| FlatVerifierClass.Verifier.BufferFromStart | include/flatbuffers/verifier.h:193-215 | Minimum size, identifier, root offset and root table, also for a verifier whose counters are not at 0. |
| FlatVerifierClass.Verifier.Buffer | include/flatbuffers/verifier.h:236-245 | The whole buffer, with or without a size prefix, also for a verifier used before. |
| FlatBufferStart.BufferStartInverse | include/flatbuffers/flatbuffers.h:44-76 | For a buffer finished right after its root table, without identifier or with one that has no NUL, the search from the root returns the front of the buffer within its nine tries. |
| FlatBufferStart.HeaderHarmless | include/flatbuffers/flatbuffers.h:59-60 | No padding or identifier word between the root offset and the objects points to the root. |
| FlatBufferStart.GetBufferStart | include/flatbuffers/flatbuffers.h:63-75 | The counted loop finds the nearest word in front that points to the root, or nothing. |
| MfxMessage.MessageDecodes | OpenMfxRemoteProxy/common/MfxProxyMessage.cpp:11-36 | Decoding a framed message returns the effect id, thread id, message id and type it was made with, zeros that were elided included; asking for its type leads to the payload, asking for another type to none. |
| MfxMessage.SubscriptionExact | OpenMfxRemoteProxy/plugin/MfxProxyEffect.cpp:208-210 | For all 32-bit effect ids the subscription to four bytes delivers a message to its own effect and no other. |
| MfxMessage.MakeMessage | OpenMfxRemoteProxy/common/MfxProxyMessage.h:51-67 | The new message is the effect id in little-endian order and the finished buffer behind it. |
| MfxMessage.BuildMessage | OpenMfxRemoteProxy/common/MfxProxyMessage.h:38-77 | From the calls that build an envelope on the object to the bytes of the message: decoding these returns what went in. |
| ProxyMessage.MessageRoundTrip | python_mockup/proxy_lib.py:229-239 | Decoding an encoded message gives it back for every id, negative ones too, and with any slashes in the payload. |
| ProxyMessage.DeliveredById | python_mockup/proxy_lib.py:225-230 | Whether a subscriber gets a message depends on the two ids alone: one prefix must begin with the other. |
| ProxyMessage.RoutedExactly | python_mockup/proxy_lib.py:225-230 | With ids of at most eight digits each message reaches exactly the subscriber with its id. |
| ProxyMessage.RoutingFails | python_mockup/proxy_lib.py:225-230 | Instance 10000000 gets a message for instance 100000000. |
| ProxyMessage.RoutedExcept | python_mockup/proxy_lib.py:225-230 | For all non-negative ids: a message reaches its own instance, and one of at least eight digits whose id is its id without its last digits, and no other. |
| ProxyRuns.RunInvariant | python_mockup/proxy_lib.py:43-204 | In every state that any interleaving of any number of threads and instances reaches: who holds which mutex, what every queue and hand may carry, how many messages are under way, what is known of the start. |
| ProxyRuns.OneInFlight | python_mockup/proxy_lib.py:142-182 | An instance has exactly one message under way, queued or being handled, while a thread waits for its reply, and none otherwise. |
| ProxyRuns.ReturnsOwnReply | python_mockup/proxy_lib.py:142-166 | Every call that returned brought back, found under their names in the reply, the status `kOfxStatusOk`, both inputs, and the parameters with its own as the third; never the error status of an unexpected message. |
| ProxyNet.EndReads | python_mockup/proxy_lib.py:152-175 | What a host instance puts into its reply is what the caller looks up in it. |
| ProxyNet.StartReads | python_mockup/proxy_lib.py:146-147 | The parameters of a request, whatever characters they have, are found again by the host. |
| Json.LoadsDumps | python_mockup/proxy_lib.py:229-239 | Strings, arrays and objects written as `json.dumps` does are read back, nested at will, with all characters. |
| Json.PlainText | python_mockup/proxy_lib.py:229-230 | Printable text is written as it is. |
| ProxyRuns.InboxesClean | python_mockup/proxy_lib.py:150-164 | Nothing but the reply to the call that waits is ever in the queue of an instance, with or without a handshake. |
| ProxyNet.NetKeeps | python_mockup/proxy_lib.py:68-114 | Every step of a broker or host instance keeps what queues carry and how many messages are under way. |
| ProxyNet.HostReceivesIs | python_mockup/proxy_lib.py:192-202 | A host instance only ever receives requests for itself, with the parameters of the caller. |
| ProxyNet.BroadcastReply | python_mockup/proxy_lib.py:76-78 | Publishing a reply adds it to the queue of its own instance and no other. |
| ProxyNet.BroadcastHello | python_mockup/proxy_lib.py:93-94 | The greeting, should it be published, reaches no instance. |
| ProxyCalls.ReceiveIs | python_mockup/proxy_lib.py:152-161 | What a waiting thread receives is the reply to its own request. |
| ProxyCalls.SendKeeps | python_mockup/proxy_lib.py:144-147 | Sending with the mutex held puts the one message under way. |
| ProxyRuns.StatusSettles | python_mockup/proxy_lib.py:38-60 | `status_ready` is set once, to false only by the timeout, and when it is set nobody sleeps on it any more and everybody who was told has its value. |
| ProxyRuns.HandshakeIs | python_mockup/proxy_lib.py:47-56 | The first message on the link is the greeting, so a handshake always succeeds; the other branch is not reached. |
| ProxyRuns.GreetingNotForwarded | python_mockup/proxy_lib.py:46-78 | After a successful handshake no greeting has ever been published to instances. |
| ProxyProgress.SomeHop | python_mockup/proxy_lib.py:64-114 | While a thread waits for its reply some hop is enabled, timeouts aside. |
| ProxyProgress.HopLowers | python_mockup/proxy_lib.py:64-114 | Every hop strictly lowers the distance the messages under way still have to go. |
| ProxyProgress.HopsEnd | python_mockup/proxy_lib.py:64-114 | No schedule of hops is longer than that distance. |
| ProxyProgress.EveryCallAnswered | python_mockup/proxy_lib.py:142-182 | From every reachable state, hops alone come to an end within that distance, and then no thread waits for a reply or for the status of the broker. |
| ProxyProgress.SomeAdvance | python_mockup/proxy_lib.py:142-182 | While any thread is in a call, also one that waits for the mutex, some step of a call under way is enabled. |
| ProxyProgress.AdvanceLowers | python_mockup/proxy_lib.py:142-182 | Every such step, those of threads included, strictly lowers what is left to do for the calls that have begun. |
| ProxyProgress.EveryCallReturns | python_mockup/proxy_lib.py:142-182 | From every reachable state a schedule without new calls is bounded, and where it can go no further no thread acquires, sends, waits, sleeps on the status or holds a mutex any more. |
| ProxyProgress.StartupDone | python_mockup/proxy_lib.py:38-60 | Where no hop is possible the status is set and no thread sleeps on it: no waiter has missed it. |
| ProxyProgress.WaitMeets | python_mockup/proxy_lib.py:38-62 | A thread can fall asleep on the status only before the broker has the lock, is held off while it polls, and is told at once afterwards. |
| ProxyLimit.AnswersExactly | python_mockup/proxy_lib.py:142-182 | Every call in every run, with any number of threads, returns the reply to its own parameters if and only if there are at most 100000000 instances. |
| ProxyLimit.WrongAnswer | python_mockup/proxy_lib.py:225-230 | Beyond that: a run in which a call on instance 10000000 returns the reply to what was asked of instance 100000000. |
| Utf8.ToUTF8 | include/flatbuffers/util.h:492-513 | Appends the shortest of six encodings and returns its length. |
| Utf8.OnesShift | include/flatbuffers/util.h:497-503 | The leading ones of the first byte are the shift of the source, for all six lengths. |
| Utf8Table.EncodingDrawn | include/flatbuffers/util.h:492-513 | All six lengths byte by byte, as section 2 of RFC 2279 draws them. |
| Utf8.CountLeadingOnes | include/flatbuffers/util.h:521-529 | The loop over the mask counts the leading ones, up to six. |
| Utf8.FromUTF8 | include/flatbuffers/util.h:520-561 | Code point and position, or failure, as `Utf8.Decoded` says. |
| Utf8.AcceptsGrammar | include/flatbuffers/util.h:520-561 | The decoder accepts exactly the grammar in section 4 of RFC 3629 and consumes exactly one character. |
| Utf8.Reencodes | include/flatbuffers/util.h:492-561 | Whatever is accepted is a Unicode scalar value, and encoding it gives exactly the bytes consumed. |
| Utf8.DecodesEncoding | include/flatbuffers/util.h:492-561 | For every number that can be encoded: decoding gives it back if it is a scalar value, and fails otherwise. |
| EscapeJson.EscapeString | include/flatbuffers/util.h:592-660 | The loop with its skips appends the text specified, or reports failure. |
| EscapeJson.WriteUnicode | include/flatbuffers/util.h:636-650 | One escape of four digits, or a surrogate pair. |
| EscapeJson.EscapeCorrect | include/flatbuffers/util.h:592-660 | With both options off: succeeds exactly on valid UTF-8, writes bytes from 0x20 to 0x7E only, and a JSON reader gets the code points of the input back. |
| EscapeJson.EscapedReads | include/flatbuffers/util.h:596-657 | The same from any character on, for both settings of `natural_utf8`. |
| EscapeJson.NaturalCorrect | include/flatbuffers/util.h:633-635 | With `natural_utf8` the text is JSON for the input if and only if no byte of the input is a control character without a short escape. |
| EscapeJson.NaturalFails | include/flatbuffers/util.h:633-635 | The byte 1 is such a character. |
| EscapeBytes.BytesCorrect | include/flatbuffers/util.h:612-617 | With ill-formed bytes allowed it always succeeds, and a reader that also knows `\x` with two digits gets back every byte of the input; with `natural_utf8` unless there is a control character without a short escape. |
| EscapeBytes.EscapedBytes | include/flatbuffers/util.h:592-660 | The same from any place on. |
| EscapeBytes.ChunkWritten | include/flatbuffers/util.h:596-657 | The form of what is written: the letters of the short escapes, printable characters as they are, otherwise `\u` or `\x` with upper-case digits, and surrogate pairs where needed only. |
| FlexRun.FlexRoundTrip | include/flatbuffers/flexbuffers.h:886-894 | Reading from the root of a finished buffer gives the tree that was built, maps in key order, with and without sharing and at any minimum width. |
| FlexTrees.TreesExactly | include/flatbuffers/flexbuffers.h:963-1182 | Exactly these values can be built: numbers within 64 bits, keys without NUL, typed vectors with elements of their type, maps with distinct keys in key order, nested at will. |
| FlexTrees.CallsBuild | include/flatbuffers/flexbuffers.h:963-1182 | The calls that follow the shape of such a value describe it and nothing else. |
| FlexTrees.TreeRoundTrip | include/flatbuffers/flexbuffers.h:886-894 | The round trip for every such value. |
| FlexUnique.ReadsOne | include/flatbuffers/flexbuffers.h:836-894 | The accessors find one value at most. |
| FlexUnique.BufferTells | include/flatbuffers/flexbuffers.h:886-894 | Two runs with the same finished buffer described the same value, whatever they shared. |
| FlexTypes.RootByte | include/flatbuffers/flexbuffers.h:52-88 | The last byte but one of a finished buffer has the type of the root as the number of the format, 9 for a map, and its width as 1, 2, 4 or 8. |
| FlexTypes.ElementByte | include/flatbuffers/flexbuffers.h:52-88 | The same for the type bytes behind the elements of a vector or map. |
| FlexNarrow.RunNarrow | include/flatbuffers/flexbuffers.h:188-203 | No number, string or blob that a run leaves on the stack is wider than it has to be. |
| FlexNarrow.VectorNarrow | include/flatbuffers/flexbuffers.h:1553-1582 | A vector has a width that its length, its keys or one of its elements needs, or the least one asked for. |
| FlexNarrow.IndirectPlaced | include/flatbuffers/flexbuffers.h:1409-1414 | An indirect number stands at the next multiple of its width. |
| FlexNarrow.BlobPlaced | include/flatbuffers/flexbuffers.h:1522-1530 | The same for the length of strings and blobs. |
| FlexNarrow.VectorPlaced | include/flatbuffers/flexbuffers.h:1584-1600 | The same for vectors and maps, with the length they have. |
| FlexRun.RunHolds | include/flatbuffers/flexbuffers.h:1122-1182 | In every run no assertion fails, those of the width search and of storing offsets included, while the buffer stays below the size limit, and the values on the stack stand for the trees described. |
| FlexRun.ApplyInv | include/flatbuffers/flexbuffers.h:963-1182 | One call: the same. |
| FlexRun.RootReads | include/flatbuffers/flexbuffers.h:1348-1364 | Root value, type and width at the end of the buffer lead back to the value left on the stack. |
| FlexRun.FinishSafe | include/flatbuffers/flexbuffers.h:1348-1364 | No assertion fails while the root is written. |
| FlexRun.ScalarsHold | include/flatbuffers/flexbuffers.h:1532-1551 | A typed vector written straight from an array reads as that array. |
| FlexRun.ScalarFixedHolds | include/flatbuffers/flexbuffers.h:1251-1258 | The same for a vector of two to four numbers, whose size is in its type only. |
| FlexRun.IndirectHolds | include/flatbuffers/flexbuffers.h:1409-1414 | An indirect number, aligned to its width, reads back. |
| FlexRun.BlobHolds | include/flatbuffers/flexbuffers.h:1522-1530 | Size and bytes of a blob read back. |
| FlexWidths.SearchFinds | include/flatbuffers/flexbuffers.h:1472-1499 | The search over widths always matches, and the match is the least width that fits the offset at that width. |
| FlexWidths.DistanceGrows | include/flatbuffers/flexbuffers.h:1485-1489 | The offset grows with the width tried, but by less than the range gains, so the search cannot run past every width. |
| FlexWidths.OffsetFits | include/flatbuffers/flexbuffers.h:1403-1407 | The width found for a place stores the offset from that place or any earlier one, also at a larger width, so the assertion on offsets never fires. |
| FlexVectors.ElemFits | include/flatbuffers/flexbuffers.h:1558-1598 | The maximum over a vector stores every element, although maps search with places further back than the real ones. |
| FlexVectors.VectorSafe | include/flatbuffers/flexbuffers.h:1403-1407 | While a vector is written every width search ends with a match and every offset passes the assertion on its size. |
| FlexMaps.MapSafe | include/flatbuffers/flexbuffers.h:1173-1177 | The same for both vectors of a map and the offset of its keys. |
| FlexWidths.WidthUFits | include/flatbuffers/flexbuffers.h:188-198 | The least width an unsigned number fits. |
| FlexWidths.WidthUBits | include/flatbuffers/flexbuffers.h:188-198 | The masks of the source are comparisons with powers of two. |
| FlexWidths.WidthIBits | include/flatbuffers/flexbuffers.h:200-203 | What shift and complement make of a signed number. |
| FlexWidths.WidthIFits | include/flatbuffers/flexbuffers.h:200-203 | The least width a signed number fits. |
| FlexWidths.IntSurvives | include/flatbuffers/flexbuffers.h:149-152 | A signed number cut to its width or a larger one reads back with its sign. |
| FlexValues.SlotReads | include/flatbuffers/flexbuffers.h:1511-1520 | An element stored in a slot that is wide enough reads as the tree its value stands for. |
| FlexVectors.VectorHolds | include/flatbuffers/flexbuffers.h:836-842 | The elements of an untyped vector read back with the types behind them. |
| FlexVectors.TypedHolds | include/flatbuffers/flexbuffers.h:844-849 | The elements of a typed vector read back. |
| FlexVectors.BeyondIsNull | include/flatbuffers/flexbuffers.h:836-855 | Behind its last element a vector of any kind gives null. |
| FlexFixed.FixedHolds | include/flatbuffers/flexbuffers.h:851-855 | The elements of a vector of fixed length read back. |
| FlexFixed.FixedElementIs | include/flatbuffers/flexbuffers.h:104-126 | The type of such a vector leads back to its element type and length. |
| FlexMaps.SortAscending | include/flatbuffers/flexbuffers.h:1155-1172 | Entries with distinct keys come out in strictly ascending order of their bytes: at the first difference the smaller byte, or the end of the key, comes first. |
| FlexMaps.StrcmpOrder | include/flatbuffers/flexbuffers.h:1155-1172 | For keys without NUL the comparison is that order. |
| FlexMaps.SortedHolds | include/flatbuffers/flexbuffers.h:1155-1172 | Sorting the pairs on the stack by the characters in the buffer sorts the entries they stand for. |
| FlexMaps.DuplicatesExactly | include/flatbuffers/flexbuffers.h:1160-1172 | A duplicate key is noticed if and only if one was added twice. |
| FlexRun.RunUnflagged | include/flatbuffers/flexbuffers.h:1130-1182 | No run with distinct keys is reported to have duplicates. |
| FlexMaps.MapHolds | include/flatbuffers/flexbuffers.h:1173-1181 | The key vector and the value vector of a map read back as its entries. |
| FlexMaps.BsearchFinds | include/flatbuffers/flexbuffers.h:857-878 | The binary search finds a key that is there and nothing for one that is not, for all four key widths. |
| FlexMaps.MapFindReads | include/flatbuffers/flexbuffers.h:864-880 | Looking up a key yields its value, and null for every other key. |
| FlexMaps.AddedFound | include/flatbuffers/flexbuffers.h:864-880 | The same in terms of what was added, in whatever order. |
| FlexSharing.RootMapLookup | include/flatbuffers/flexbuffers.h:864-894 | The same for the map at the root of a finished buffer. |
| FlexSharing.EqualOffsets | include/flatbuffers/flexbuffers.h:1029-1067 | Equal keys that are on the stack together have one offset, and so have equal strings, when they are shared. |
| FlexSharing.EqualCalls | include/flatbuffers/flexbuffers.h:1029-1067 | In every run all calls that add one key push one offset, and so do all that add one string, when they are shared, also after earlier ones have become part of a vector or map. |
| FlexSharing.SharingInvisible | include/flatbuffers/flexbuffers.h:1029-1067 | One run with two settings of sharing and minimum width reads back as the same tree. |
| FlexPools.KeyHolds | include/flatbuffers/flexbuffers.h:1029-1045 | A key, fresh or pooled, stands for its characters after the fresh copy is cut off. |
| FlexPools.StringHolds | include/flatbuffers/flexbuffers.h:1050-1067 | The same for strings, whose size field must be found in front of the pooled copy. |
| FlexPools.KeyShared | include/flatbuffers/flexbuffers.h:1032-1042 | What is pushed for a key is what the pool has for it from then on. |
| FlexPools.StringShared | include/flatbuffers/flexbuffers.h:1053-1065 | The same for strings, and the pool never holds one string twice. |
| FlexPools.FindKeyIs | include/flatbuffers/flexbuffers.h:1625-1633 | The pool's comparison finds exactly a copy of the same key. |
| FlexPools.NeitherBefore | include/flatbuffers/flexbuffers.h:1636-1646 | The pool's order identifies two strings exactly when length and bytes agree, embedded NULs included. |
| FlexBuilderClass.SearchElemWidth | include/flatbuffers/flexbuffers.h:1481-1497 | The loop over widths returns `FlexBuilder.ElemWidth` and never falls out at its end. |
| FlexBuilderClass.FlexBufferBuilder.Key | include/flatbuffers/flexbuffers.h:1029-1045 | Buffer, stack and pool after the call are those of `FlexBuilder.Key`. |
| FlexBuilderClass.FlexBufferBuilder.String | include/flatbuffers/flexbuffers.h:1050-1067 | The same for `FlexBuilder.String`. |
| FlexBuilderClass.FlexBufferBuilder.CreateBlob | include/flatbuffers/flexbuffers.h:1522-1530 | The same for a blob; returns where its bytes are. |
| FlexBuilderClass.FlexBufferBuilder.PushIndirect | include/flatbuffers/flexbuffers.h:1409-1414 | The same for an indirect number. |
| FlexBuilderClass.FlexBufferBuilder.ScalarVector | include/flatbuffers/flexbuffers.h:1533-1551 | The same for the loop over an array of scalars, with its length in front or in the type. |
| FlexBuilderClass.FlexBufferBuilder.FindWidth | include/flatbuffers/flexbuffers.h:1569-1582 | The first loop over the elements computes the largest width needed. |
| FlexBuilderClass.FlexBufferBuilder.CreateVector | include/flatbuffers/flexbuffers.h:1553-1609 | Keys, size, elements and types are written as `FlexBuilder.CreateVector` says, and a vector of fixed length, which has no size, as `FlexBuilder.CreateFixed` says. |
| FlexBuilderClass.FlexBufferBuilder.EndVector | include/flatbuffers/flexbuffers.h:1122-1128 | The elements on the stack are replaced by the vector, of fixed length or not. |
| FlexBuilderClass.FlexBufferBuilder.EndMap | include/flatbuffers/flexbuffers.h:1130-1182 | The pairs on the stack are sorted, written as two vectors and replaced by the map; a duplicate key is remembered. |
| FlexBuilderClass.FlexBufferBuilder.Finish | include/flatbuffers/flexbuffers.h:1348-1364 | The root value, its type and its width are appended and the builder is finished. |
| FlexRunClass.Execute | include/flatbuffers/flexbuffers.h:963-1182 | A whole run on the builder object leaves the buffer, stack and pools of the run on values. |
| FlexRunClass.Build | include/flatbuffers/flexbuffers.h:1348-1364 | Building and finishing on the object: a reader of its buffer finds the value described. |
| FlexRunClass.BuildValue | include/flatbuffers/flexbuffers.h:963-1182 | The same from any value that can be built. |

## Left out

- Sizes: FlatBuffers stay below 2^31 - 1 bytes and FlexBuffers below 2^64; a run that would grow beyond is reported as too large where the source asserts, and the wrapped `size_t` arithmetic beyond is not modelled.
- Field ids are even and between 4 and 0xFFFC, alignments are powers of two up to 32; the generated code uses no others, and `FlatRun.AddOk` says so.
- FlatBufferBuilderClass.FlatBufferBuilder.EndTable: asks for distinct field ids in place of the source's assertion that a vtable entry is still zero; `FlatBufferBuilderClass.FlatBufferBuilder.FillEntries` shows that the assertion then holds.
- VectorDownwardClass.VectorDownward.constructor: an array of length 0 stands for the null pointer before the first allocation.
- FlatBufferBuilderClass.FlatBufferBuilder.TrackField: the two unused bytes of a field location on the scratch stack are zero, where the source leaves them undefined; nothing reads them.
- FlatBufferBuilderClass.FlatBufferBuilder.PopBytes: asks that the vtables and fields on the scratch stack lie in what remains, as at both calls in the source; otherwise the builder would be left with offsets that lead nowhere.
- FlatBufferBuilderClass.FlatBufferBuilder.CreateSharedString: the ordered set of offsets is a list that is searched with the same comparison, so what is found is modelled, not the tree.
- FlexBuilderClass.FlexBufferBuilder.EndMap: `std::sort` is an insertion sort by the same comparison, and duplicate keys are detected from the pairs, not from the calls the sort happens to make; `std::bsearch` is halving.
- FlexBuilderClass.FlexBufferBuilder.CreateVector: asks for values whose objects lie in the buffer, which every run of the builder keeps (`FlexRun.RunHolds`).
- FlexRun.FlexRoundTrip: maps must have distinct keys, as the source asks; a map with duplicates is flagged and not read back here.
- FlatVerifierComplete.VerifierComplete: both limits are below 2^32 - 1, so that the 32-bit counters cannot wrap before a limit stops them; elements of vectors are scalars of at most eight bytes or offsets.
- FlatBufferStart.BufferStartInverse: buffers without a size prefix, finished right after their root table and placed at an address that is a multiple of 4, as the search itself supposes.
- FlatFinish.RoundTrip: scalars are bit patterns and compared as such; the source compares floats by value, so it elides -0.0 where the default is 0.0. Vectors of structs are left out, because the length handed to `StartVector` there is not the number of elements and the alignment statement fails for structs aligned to less than 4.
- FlatVerifierSound.VerifierSound: unions, nested buffers and vectors of structs have no kind of their own in the schemas.
- Mutation in place of finished buffers (`SetField`, `Mutate` and the like), sorted tables, structs built field by field, moved-from builders, custom allocators, big-endian and MSVC paths: they add cases, not difficulty.
- FlexFixed.FixedHolds: vectors of fixed length hold two to four signed or unsigned integers; tuples of keys or booleans, whose type the source does not encode, and a length of zero, which it does not catch in `EndVector`, are left out.
- Floating point in FlexBuffers, the deprecated string vectors and the FlexBuffers verifier.
- ProxyRuns.RunInvariant: sockets are FIFO queues with subscriptions in place and without loss, the five-second poll is a free choice between message and timeout, sleeping, logging and sockets in error are left out; at most 100000000 instances exist, which is as many as it can hold for (`ProxyLimit.AnswersExactly`).
- ProxyMessage.MessageRoundTrip: the payload is text, and `Json` is about what stands in it; a message type is written as its enum value; an instance id is an optional minus sign and digits, where Python's `int` also takes spaces, underscores and other digits.
- ProxyRuns.ReturnsOwnReply: a call brings back all it looks up in its reply, of which the source returns the status and logs the rest.
- Json.LoadsDumps: numbers, `true`, `false` and `null`, which no message has, are left out, and a string has Unicode characters only, where Python's can have lone surrogates.
- MfxMessage.MessageDecodes: the envelope has a message type other than 0, which `make_message` asserts at compile time.
- The C++ plugin broker forwards as the Python one does and its timed wait for the plugin definition has no predicate; the C++ host broker's handling of messages, instance creation, cooking and identity are unfinished in the source. None of them is part of this model, nor is the OpenMfx SDK.

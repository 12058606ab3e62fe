# syphen: stream specs, duration units, signal adapters and the WAVE/PCM path, in Dafny

This project models the spec, size and adapter layer of the syphen media-I/O framework
and proves properties of that model.

- **Stream-spec reconciliation** (`stream_spec.dfy`, module `StreamSpecs`):
  - `StreamSpec` and `StreamSpecBuilder` are datatypes.
  - `merge(&mut self, other)` is a function that returns the receiver's new value together with the result. This makes what a failed merge has already written part of the contract.
  - `build`, `is_full`, `is_empty`, `with_tag_type` and the `From`/`TryFrom` conversions are modelled too.
- **Exact duration units** (`duration.dfy`, module `Durations`):
  - `NBytes` and `NBlocks` are one unit-tagged `u64` count type.
  - The `impl_ops!` operators are written once for both units.
  - The exact `NBlocks ↔ NBytes` conversion goes through `block_align`.
- **Adapters with state**:
  - `Concat` (`concat.dfy`) is a class with the `current_i` cursor. Its read loop is proved against a recursive specification.
  - `StreamSelector` (`stream_selector.dfy`) is a class whose polling loop is proved against a function that picks the packet the read returns.
  - `Observer` (`observe.dfy`) is a class whose callback is a ghost log of the events it was handed. The log is kept consistent with the installed callback kind.
  - The inner list, format and signal of each adapter are scripted objects. Each read consumes the next entry of a queue of counts or errors, and each object keeps a log of the calls it received.
- **The older `src/io` tree**, with its own types in `syphon.dfy` (module `Syphon`):
  - The WAVE container (`wave.dfy`, module `WaveFormat`): the identifier table, `fill_wave_data`, and `Wave`'s clamped read/write with the byte counter `i`.
  - `PcmDecoder` (`pcm.dfy`): the block-layout check, the byte/sample arithmetic of `read`, and the reader-variant choice.
  - Format lookup (`formats.dfy`): identifier search over the static tables, and the `Path` → extension rule.

`common.dfy` holds `Option`/`Result`, the machine-integer ranges (`u16`, `u32`, `u64`, `i64`, `usize`), `Min`/`Max`/`AlignDown` and the `PhonicError` kinds.

`signal_spec.dfy` is a minimal stand-in for `phonic_signal`'s `SignalSpec` and `SignalSpecBuilder`, which are not part of this model:
- A spec merge succeeds only on equal specs.
- A builder merge fills each field that is absent and compares the fields that are present.
- A build fails with MissingData when a field is missing.

Arithmetic follows a debug build. An overflowing `+` or `*`, a `-` below zero, a `% 0` or `/ 0`, an index out of range and `todo!()` all panic. Each of them is a precondition of the member that would reach it.

## Model

| member | source | states |
|---|---|---|
| StreamSpecs.CompatibleAlignsDivideMax | crates/phonic_io/src/codec/spec.rs:73-84 | when the larger block alignment is a multiple of the smaller one, the kept maximum is a multiple of both alignments |
| StreamSpecs.MergeSpec | crates/phonic_io/src/codec/spec.rs:68-86 | codec, byte rate and sample layout never change; a failed codec conversion returns its error and leaves self unchanged; a differing codec, rate or layout, or alignments that do not divide one another, give ParamMismatch and leave self unchanged; otherwise block_align becomes the maximum (a multiple of both) before the decoded-spec merge; success iff the two are reconcilable and the decoded specs agree |
| StreamSpecs.MergedSpec | crates/phonic_io/src/codec/spec.rs:88-95 | Ok iff merge succeeds, and then it is self with block_align set to the larger alignment; once the codec converts, the only error is ParamMismatch |
| StreamSpecs.BlockAlignMergeExamples | crates/phonic_io/src/codec/spec.rs:73-84 | alignments 64 and 192 merge to 192 in either order; 64 and 100 give ParamMismatch with self unchanged |
| StreamSpecs.MergeSpecIdempotent | crates/phonic_io/src/codec/spec.rs:68-86 | merging a spec with itself succeeds and changes nothing |
| StreamSpecs.MergeSpecCommutes | crates/phonic_io/src/codec/spec.rs:68-86 | for one codec type the merge result does not depend on operand order, and neither does the merged value on success |
| StreamSpecs.MergeSpecAssociative | crates/phonic_io/src/codec/spec.rs:68-86 | with one block alignment throughout, (a merge b) merge c succeeds iff a merge (b merge c) does, and then both give the same spec |
| StreamSpecs.MergeSpecAlignNotAssociative | crates/phonic_io/src/codec/spec.rs:73-84 | alignments 3, 2 and 6: 3 and 2 do not merge, yet 2 merges with 6 and that result merges with 3 |
| StreamSpecs.BuilderFromSignal | crates/phonic_io/src/codec/spec.rs:243-250 | a builder made from a signal knows only its sample layout and decoded spec; codec, byte rate and alignment are absent |
| StreamSpecs.IntoBuilder | crates/phonic_io/src/codec/spec.rs:231-241 | the builder of a spec knows every field, and building it gives the spec back |
| StreamSpecs.WithTagType | crates/phonic_io/src/codec/spec.rs:32-44 | converting the tag of a spec agrees with converting the tag of its builder by the same conversion made infallible |
| StreamSpecs.NewBuilder | crates/phonic_io/src/codec/spec.rs:99-101 | a new builder is empty, has no codec, and fails to build with MissingData |
| StreamSpecs.IsFull | crates/phonic_io/src/codec/spec.rs:147-152 | every builder that builds is full, and a full builder is not empty |
| StreamSpecs.IsEmpty | crates/phonic_io/src/codec/spec.rs:154-159 | an empty builder fails to build with MissingData |
| StreamSpecs.BuilderWithTagType | crates/phonic_io/src/codec/spec.rs:103-116 | fails iff a codec is set and its conversion fails, with that error; otherwise the codec is converted and present exactly when it was before, and byte rate, alignment, sample layout and decoded spec are copied unchanged |
| StreamSpecs.MergeBuilder | crates/phonic_io/src/codec/spec.rs:161-189 | the error is always ParamMismatch; codec and byte rate are filled from other when absent and must agree when present (the codec fill survives a later rate mismatch); when codec, rate or alignment conflict, alignment and decoded spec are left as self has them; otherwise block_align is taken from other when absent in self, kept when absent in other, else the maximum of two values dividing one another, and the decoded spec and the result are those of the decoded-spec merge; sample_layout is never changed; success iff no conflict and the decoded-spec merge succeeds |
| StreamSpecs.MergedBuilder | crates/phonic_io/src/codec/spec.rs:191-194 | Ok iff merge succeeds, and then the value is exactly the state merge leaves behind; the only error is ParamMismatch |
| StreamSpecs.MergeBuilderIdempotent | crates/phonic_io/src/codec/spec.rs:161-189 | merging a builder with itself succeeds and changes nothing |
| StreamSpecs.MergeBuilderCommutesExceptLayout | crates/phonic_io/src/codec/spec.rs:161-189 | builder merge gives the same result in either order, and the same merged value except for the sample layout |
| StreamSpecs.MergeBuilderKeepsEarlierFill | crates/phonic_io/src/codec/spec.rs:162-174 | a codec filled in from other stays in place when the byte rates then mismatch |
| StreamSpecs.MergeBuilderDropsLayout | crates/phonic_io/src/codec/spec.rs:161-189 | a layout known only to other is lost, and two different layouts merge without error (finding) |
| StreamSpecs.MergeBuilderChecked | crates/phonic_io/src/codec/spec.rs:161-189 | builder merge with the layout reconciled: a layout conflict is ParamMismatch with self unchanged, otherwise the layout is filled from other |
| StreamSpecs.MergeBuilderCheckedCommutes | crates/phonic_io/src/codec/spec.rs:161-189 | with the layout reconciled, result and merged value are independent of operand order |
| StreamSpecs.MergeBuilderAssociative | crates/phonic_io/src/codec/spec.rs:161-194 | with the present block alignments all equal, merging (a, b) then c succeeds iff merging a with (b, c) does, and then gives the same builder |
| StreamSpecs.Build | crates/phonic_io/src/codec/spec.rs:217-229 | Ok iff codec, byte rate, alignment and layout are all present and the decoded spec builds, and then copies them verbatim; every failure is MissingData |
| StreamSpecs.FullBuilderMayNotBuild | crates/phonic_io/src/codec/spec.rs:147-152 | is_full ignores the codec, so a full builder without a codec fails to build with MissingData |
| StreamSpecs.BuildIntoBuilder | crates/phonic_io/src/codec/spec.rs:231-241 | a builder that builds equals the builder of what it builds |
| StreamSpecs.TagConversionCommutesWithBuild | crates/phonic_io/src/codec/spec.rs:103-116 | a lossless tag conversion of a builder never fails, and building after it equals StreamSpec::with_tag_type after building |
| Durations.Ratio | crates/phonic_io_core/src/duration.rs:81-87 | same-unit division is the floored quotient: q*b <= a < q*b + b |
| Durations.DivBy | crates/phonic_io_core/src/duration.rs:89-96 | division by a scalar keeps the unit and floors: r*k <= a < r*k + k |
| Durations.LeIsTotalOrder | crates/phonic_io_core/src/duration.rs:8-16 | the derived order on counts of one unit is reflexive, antisymmetric, transitive and total |
| Durations.Plus | crates/phonic_io_core/src/duration.rs:57-60 | the sum is at least each operand, and subtracting either operand from it gives the other |
| Durations.Minus | crates/phonic_io_core/src/duration.rs:66-69 | the difference is at most the minuend, and adding the subtrahend back gives the minuend |
| Durations.Times | crates/phonic_io_core/src/duration.rs:75-78 | the count is the plain product; a nonzero factor never shrinks the count, and dividing by that factor gives the count back |
| Durations.MinusThenPlus | crates/phonic_io_core/src/duration.rs:54-70 | adding back what was subtracted gives the count back |
| Durations.TimesThenRatio | crates/phonic_io_core/src/duration.rs:72-87 | a count scaled by k, divided by a count of k, gives the original count |
| Durations.BytesFromBlocks | crates/phonic_io_core/src/duration.rs:127-132 | for a nonzero alignment the byte count lies on a block boundary and is exactly n_blocks blocks |
| Durations.BlocksFromBytes | crates/phonic_io_core/src/duration.rs:153-163 | for a byte count on a block boundary, the block count times block_align is the byte count |
| Durations.BlocksIntoBytes | crates/phonic_io_core/src/duration.rs:109-113 | into_stream_duration from blocks is from_stream_duration with the arguments swapped: for a nonzero alignment the bytes lie on a block boundary and are exactly that many blocks |
| Durations.BytesIntoBlocks | crates/phonic_io_core/src/duration.rs:109-113 | into_stream_duration from bytes is from_stream_duration with the arguments swapped: the block count times block_align is the byte count |
| Durations.IntoRoundTrips | crates/phonic_io_core/src/duration.rs:109-113 | the two into_stream_duration conversions undo one another, in both orders |
| Durations.BlocksRoundTrip | crates/phonic_io_core/src/duration.rs:127-162 | blocks to bytes to blocks is the identity for a nonzero alignment without overflow |
| Durations.BytesRoundTrip | crates/phonic_io_core/src/duration.rs:127-162 | bytes to blocks to bytes is the identity on block boundaries |
| Durations.BytesFromBlocksMonotone | crates/phonic_io_core/src/duration.rs:8-16 | with the derived order, more blocks never convert to fewer bytes (and the smaller conversion cannot overflow) |
| Durations.BlocksFromBytesMonotone | crates/phonic_io_core/src/duration.rs:153-162 | more bytes on block boundaries never convert to fewer blocks |
| Durations.BytesFromBlocksAdditive | crates/phonic_io_core/src/duration.rs:127-131 | converting a sum of block counts equals adding the converted counts, and neither addition overflows |
| Durations.FourByteBlocksExample | crates/phonic_io_core/src/duration.rs:127-162 | with a 4-byte alignment, 10 blocks are 40 bytes and back, and 41 bytes are not on a boundary |
| ConcatSignal.ReadSpec | crates/phonic_dsp/src/utils/concat.rs:57-69 | a read from cursor cur steps over exactly the items whose read gives 0 and stops at the first nonzero count or error, leaving the cursor on that item; Ok(0) iff the cursor reaches the item count; no item before cur or after the stop changes; the count never exceeds the buffer |
| ConcatSignal.LenExample | crates/phonic_dsp/src/utils/concat.rs:50-53 | item lengths 100, 0 and 50 give a length of 150 |
| ConcatSignal.LenOfSplit | crates/phonic_dsp/src/utils/concat.rs:50-53 | the length of an item list split in two is the sum of the lengths of the parts |
| ConcatSignal.Concat.New | crates/phonic_dsp/src/utils/concat.rs:17-23 | the list's spec error is passed on; otherwise the spec is captured and the cursor starts at 0 |
| ConcatSignal.Concat.Init | crates/phonic_dsp/src/utils/concat.rs:18-22 | a Concat holds the given list and spec, with the cursor at 0 |
| ConcatSignal.Concat.Pos | crates/phonic_dsp/src/utils/concat.rs:43-46 | pos is the sum of the positions of items 0..=current_i and is at least each of them |
| ConcatSignal.Concat.Len | crates/phonic_dsp/src/utils/concat.rs:50-53 | len is the sum of every item's length and is at least each of them |
| ConcatSignal.Concat.Read | crates/phonic_dsp/src/utils/concat.rs:57-69 | the loop leaves the list, the cursor and the result exactly as ReadSpec describes, and the cursor stays within the list |
| ConcatSignal.EmptyBufferSkipsData | crates/phonic_dsp/src/utils/concat.rs:58-66 | a read into an empty buffer moves the cursor past an item with 5 samples ready, and the next read reports the end (finding) |
| ConcatSignal.ReadSpecFixed | crates/phonic_dsp/src/utils/concat.rs:57-69 | with an empty-buffer guard, such a read changes neither the items nor the cursor |
| ConcatSignal.ReadFixedSkipsOnlyEmptyItems | crates/phonic_dsp/src/utils/concat.rs:58-66 | with the guard, an item is stepped over only when it has nothing left or a zero chunk |
| ConcatSignal.PosAsWritten | crates/phonic_dsp/src/utils/concat.rs:43-46 | pos as written, defined while the cursor names an item, is the sum of the positions of items 0..=cur and is at least each of them; Concat.Pos is this function of the current state |
| ConcatSignal.PosAfterEndOutOfRange | crates/phonic_dsp/src/utils/concat.rs:43-46 | after a read reports the end, the cursor equals the item count, so pos would index a missing item (finding) |
| ConcatSignal.PosClamped | crates/phonic_dsp/src/utils/concat.rs:43-46 | pos with the range stopped at the last item agrees with pos as written while the cursor is in range, and is the sum of all positions after the end |
| ConcatSignal.PosClampedStep | crates/phonic_dsp/src/utils/concat.rs:43-46 | moving the cursor on by one adds exactly the next item's position |
| ConcatSignal.ReadMovesOnePosition | crates/phonic_dsp/src/utils/concat.rs:57-69 | a read changes only the position of the item it stops on, by the count it returns |
| ConcatSignal.ReadAdvancesPos | crates/phonic_dsp/src/utils/concat.rs:43-69 | with the items after the cursor not yet started, a read returning n moves pos on by exactly n |
| ConcatSignal.ReadThenPosExample | crates/phonic_dsp/src/utils/concat.rs:43-69 | items of 100, 0 and 50 frames: reading 100 and then 20 leaves the cursor on the third item and pos at 120, with the empty middle item untouched |
| StreamSelection.SelectRead | crates/phonic_io/src/utils/stream_selector.rs:55-61 | the packet a read returns is the first one that is an error or belongs to the stream; every packet before it is Ok and belongs to another stream |
| StreamSelection.SelectReadTakesFirstOwn | crates/phonic_io/src/utils/stream_selector.rs:55-61 | a read yields the first of the stream's own byte counts and leaves the rest, in order, for later reads; stopping on an error means no own packet came before it |
| StreamSelection.TwoStreamExample | crates/phonic_io/src/utils/stream_selector.rs:55-61 | with packets for streams 1,0,1,0 the selector for stream 0 reads 20 and then 40 |
| StreamSelection.StreamSelector.constructor | crates/phonic_io/src/utils/stream_selector.rs:16-24 | requires the stream index to be in range and captures that stream's spec |
| StreamSelection.StreamSelector.Read | crates/phonic_io/src/utils/stream_selector.rs:54-62 | the poll loop returns the count of the packet SelectRead picks, or its error unchanged, and consumes exactly the packets up to it |
| StreamSelection.StreamSelector.Write | crates/phonic_io/src/utils/stream_selector.rs:66-68 | write is forwarded with the selector's stream index and buffer length, and the format's answer is returned unchanged |
| StreamSelection.StreamSelector.Flush | crates/phonic_io/src/utils/stream_selector.rs:70-72 | flush is the whole-format flush and names no stream |
| StreamSelection.StreamSelector.Seek | crates/phonic_io/src/utils/stream_selector.rs:76-78 | seek is forwarded with the selector's stream index and the caller's offset, and the answer is returned unchanged |
| Observing.Observed | crates/phonic_dsp/src/utils/observe.rs:80-84 | the log gains at most one entry, the event itself, and gains it exactly when the callback kind runs for that event |
| Observing.ObservedFits | crates/phonic_dsp/src/utils/observe.rs:76-120 | appending what a dispatch yields keeps every logged event one that the callback kind runs for |
| Observing.ReadCallbackLogsOnlyReads | crates/phonic_dsp/src/utils/observe.rs:76-120 | a Read callback's log holds only read slices: it never sees a write or a seek |
| Observing.Observer.New | crates/phonic_dsp/src/utils/observe.rs:27-35 | installs an Event callback over the given inner signal, with an empty log |
| Observing.Observer.OnRead | crates/phonic_dsp/src/utils/observe.rs:37-45 | installs a Read callback over the given inner signal, with an empty log |
| Observing.Observer.OnWrite | crates/phonic_dsp/src/utils/observe.rs:47-55 | installs a Write callback over the given inner signal, with an empty log |
| Observing.Observer.OnSeek | crates/phonic_dsp/src/utils/observe.rs:57-65 | installs a Seek callback over the given inner signal, with an empty log |
| Observing.Observer.Read | crates/phonic_dsp/src/utils/observe.rs:77-88 | returns the inner read's result and leaves the buffer as the inner read does: on success buf[..n] holds the delivered samples and the rest is untouched, on error the buffer is untouched; on error no event is logged; on success the callback sees buf[..n] if it is a Read or Event callback; nothing else of the inner signal changes |
| Observing.Observer.Write | crates/phonic_dsp/src/utils/observe.rs:91-101 | returns the inner write's result; on success only, a Write or Event callback sees buf[..n] |
| Observing.Observer.Flush | crates/phonic_dsp/src/utils/observe.rs:103-105 | returns the inner flush's result and logs no event |
| Observing.Observer.Seek | crates/phonic_dsp/src/utils/observe.rs:109-119 | the offset goes to the inner seek; on success only, a Seek or Event callback sees that same offset |
| WaveFormat.FillWave | src/io/formats/wave/wave.rs:17-30 | Ok iff there is exactly one track and its codec is unset or Pcm; every error is Unsupported; on success the track's codec is Pcm and nothing else changes |
| WaveFormat.FillWaveIdempotent | src/io/formats/wave/wave.rs:17-30 | filling an already filled track list changes nothing more |
| WaveFormat.FillWaveRefusesOtherCodecs | src/io/formats/wave/wave.rs:23-25 | a single track that names a codec other than Pcm is Unsupported |
| WaveFormat.FillWaveData | src/io/formats/wave/wave.rs:17-30 | the builder's tracks become FillWave's on success and are untouched on error |
| WaveFormat.RequestLen | src/io/formats/wave/wave.rs:81-83 | the length passed on is at most the buffer, at most byte_len - i, a multiple of block_align, the largest such length, and zero iff less than one block fits |
| WaveFormat.CounterStaysInData | src/io/formats/wave/wave.rs:85-90 | adding a whole-block count no larger than the request keeps i within the data chunk and on a block boundary |
| WaveFormat.Wave.constructor | src/io/formats/wave/wave.rs:45-49 | a Wave starts with i = 0 over its header and inner stream |
| WaveFormat.Wave.Read | src/io/formats/wave/wave.rs:80-93 | asks the inner reader for RequestLen bytes, returns its count or error, adds the count to i, and keeps i within the data chunk on a block boundary |
| WaveFormat.Wave.Write | src/io/formats/wave/wave.rs:97-110 | the same clamp and the same counter i as read, applied to the inner writer |
| WaveFormat.Wave.Flush | src/io/formats/wave/wave.rs:112-114 | flush is the inner flush |
| Pcm.CheckBlockLayout | src/io/codecs/pcm.rs:15-20 | Ok iff a decoded block's bytes are a whole number of encoded blocks; the error is BadRequest |
| Pcm.BlockLayoutExamples | src/io/codecs/pcm.rs:15-20 | stereo 16-bit blocks over 2- or 4-byte encoded blocks pass; over 3-byte blocks they are BadRequest |
| Pcm.SampleRequest | src/io/codecs/pcm.rs:51 | the samples requested are at most the buffer, a multiple of block_size, and less than one block short of the buffer |
| Pcm.DecodeCount | src/io/codecs/pcm.rs:52-57 | Ok iff the byte count is whole sample blocks, and then the sample count times the sample size is the byte count and is whole blocks; otherwise StreamMismatch |
| Pcm.WholeBlocksDecode | src/io/codecs/pcm.rs:55 | a byte count of whole sample blocks divides into a whole number of samples forming whole blocks |
| Pcm.DecodeWithinRequest | src/io/codecs/pcm.rs:51-55 | a decoded count never exceeds the number of samples requested |
| Pcm.ReaderFor | src/io/codecs/pcm.rs:27-40 | the chosen variant reads exactly the decoded spec's sample format |
| Pcm.ReaderForIsBijective | src/io/codecs/pcm.rs:27-40 | each of the ten variants is chosen for exactly one format |
| Pcm.PcmDecoder.New | src/io/codecs/pcm.rs:13-23 | BadRequest when the block layout check fails, otherwise a decoder over the given reader |
| Pcm.PcmDecoder.Init | src/io/codecs/pcm.rs:22 | a decoder holds the given reader |
| Pcm.PcmDecoder.Read | src/io/codecs/pcm.rs:49-59 | asks the inner reader for SampleRequest samples' worth of bytes; an I/O error is converted; a byte count is decoded by DecodeCount, giving at most the buffer length in whole blocks |
| Formats.Contains | src/io/formats/formats.rs:99-104 | an extension is searched only among the extensions and a MIME type only among the MIME types, by exact equality |
| Formats.Find | src/io/formats/formats.rs:90-93 | the result is the first format in order whose identifiers contain the id, and none iff no format does |
| Formats.FormatFromIdentifier | src/io/formats/formats.rs:89-95 | a found format contains the id; Unsupported iff no format in all() contains it |
| Formats.WaveResolution | src/io/formats/formats.rs:37-46 | exactly "wav", "wave" and the four WAVE MIME types resolve to Wave; everything else is Unsupported |
| Formats.LookupIsExact | src/io/formats/formats.rs:99-104 | lookup is case-sensitive, kind-sensitive and ignores the header markers |
| Formats.FileName | src/io/formats/formats.rs:110-115 | a file name is nonempty, is not "." or "..", holds no separator, and is a component of the path followed only by separators and "." components; there is none only when the path is such noise alone or its last such component is ".." |
| Formats.ExtensionOf | src/io/formats/formats.rs:110-115 | the extension is the text after the last dot and holds no dot; there is none iff the name is "..", has no dot, or its only dot starts it |
| Formats.FileNameOfJoin | src/io/formats/formats.rs:110-115 | joining a plain name onto a directory makes it the file name, with or without a trailing separator |
| Formats.IdentifierFromPath | src/io/formats/formats.rs:110-115 | Ok iff the path has a file name and that name has an extension, and then the value is FileExtension of exactly that extension, holding no dots or separators; otherwise MissingData |
| Formats.PathExampleNested | src/io/formats/formats.rs:110-115 | "music/song.wav" gives the extension "wav" |
| Formats.PathExampleTwoDots | src/io/formats/formats.rs:110-115 | "a.tar.wave" gives "wave": only the last dot counts |
| Formats.PathExampleTrailingSlash | src/io/formats/formats.rs:110-115 | "d/s.wav/" gives "wav": a trailing separator is dropped |
| Formats.PathsWithoutExtension | src/io/formats/formats.rs:110-115 | ".wav" and "song" have no extension and give MissingData |
| Formats.PathToParentHasNoName | src/io/formats/formats.rs:110-115 | "d/.." has no file name and gives MissingData |

## Left out

- StreamSpecs.MergeSpec: requires both block alignments to be nonzero. The source panics on a zero alignment only when the codec, byte rate and layout already agree, because its `% 0` is evaluated last.
- StreamSpecs.MergeBuilder: requires every present block alignment to be nonzero. The source panics only when other has an alignment and the codec and rate checks pass.
- The decoded `SignalSpec`/`SignalSpecBuilder` and their merge and build live in `phonic_signal`, which is not part of this model. `signal_spec.dfy` is a stand-in with the behaviour described above.
- The `TryInto` codec conversion is a function parameter. `TypeLayout::of` is a value parameter. `inferred()` (crates/phonic_io/src/codec/spec.rs:196-198) calls `C::infer_spec`, which is not part of this model.
- The `with_codec`/`with_avg_byte_rate`/`with_block_align`/`with_sample_layout`/`with_sample_type`/`with_decoded_spec` setters (crates/phonic_io/src/codec/spec.rs:118-145) are left out. They are plain field updates, written as Dafny record updates where needed.
- The f64 derived rates (crates/phonic_io/src/codec/spec.rs:46-66) and the `Duration` conversions (crates/phonic_io_core/src/duration.rs:134-139, 172-184) are floating-point arithmetic and are left out.
- The `NFrames`/`NSamples` conversions (crates/phonic_io_core/src/duration.rs:115-151) are `todo!()`. The blanket `FromDuration` impl (103-107) delegates to code that is not part of this model.
- Durations.Plus: models the debug build. An overflowing `+`, `-` or `*` is a precondition, so release-mode wrap-around is not modelled. The same holds for Durations.Minus and Durations.Times.
- `Concat` write, flush and seek (crates/phonic_dsp/src/utils/concat.rs:73-93) are left out:
  - The write loop never returns once an item accepts samples.
  - flush and seek are `todo!()`.
- ConcatSignal.Concat.Pos: the sums are over unbounded naturals, so a `u64` overflow of the sum is not modelled. It requires the cursor to name an item, because the source indexes one past the end otherwise (see Findings). The same holds for ConcatSignal.Concat.Len.
- `Concat` and `StreamSelector` model buffers by their lengths and inner reads by sample or byte counts. The samples copied are not modelled.
- StreamSelection.StreamSelector.Read: requires the format to deliver, at some point, a packet of this stream or an error. Without one the source polls forever.
- StreamSelection.StreamSelector.StreamSpecOf, StreamSelection.StreamSelector.Pos and StreamSelection.StreamSelector.Len (crates/phonic_io/src/utils/stream_selector.rs:30-32, 42-44, 48-50) pass on the format's stream table entry, `stream_pos` and `stream_len` for the selector's stream. They have no property of their own beyond that, so they have no row in the table.
- `BlockingStream::block` (crates/phonic_io/src/utils/stream_selector.rs:36-38) is a readiness wait with no modelled behaviour.
- `impl_deref_signal!` (crates/phonic_dsp/src/utils/observe.rs:68-74) is a macro whose expansion is not part of this model.
- The callbacks also receive `&self.inner`. The log records only the event, and the callbacks' own effects are not modelled.
- `construct_reader`/`construct_writer` (src/io/formats/formats.rs:52-71) are I/O glue and are left out.
- `WaveHeader` parsing and writing, the `Wave::read`/`Wave::write` constructors and `into_format` (src/io/formats/wave/wave.rs:39-72) are I/O glue. The model's constructor takes a header that is already known.
- WaveFormat.Wave.constructor: requires a nonzero block_align. The source accepts a zero alignment and panics at the first read or write.
- WaveFormat.Wave.Read: requires the inner count to be whole blocks, because any other count reaches `todo!()` after `i` has already been updated. The same holds for WaveFormat.Wave.Write.
- The byte-slice casting in `PcmDecoder::read` (src/io/codecs/pcm.rs:54) and the `MaybeUninit` buffers are left out. Reads are modelled by byte counts.
- `PcmDecoder`'s `stream_spec` (src/io/codecs/pcm.rs:45-47) is a field access and has no member of its own.
- Pcm.DecodeCount: multiplication overflow of `block_size * size_of::<S>()` is not modelled (naturals). The same holds for Pcm.CheckBlockLayout.
- `SampleFormat::size` is defined outside the modelled files. It is written out in `syphon.dfy`.
- `SyphonCodec` codecs other than `Pcm` are one abstract variant, and `TrackBuilder` carries one stand-in field for those that `fill_wave_data` leaves alone.
- Formats.IdentifierFromPath: paths are character strings, so the UTF-8 `to_str` step always succeeds. Only `/` separators are modelled, not Windows prefixes or backslashes.
- `examples/convert.rs` is an example program doing file I/O and is left out.

## Findings

| source | as written | input that shows it | evidently intended | confidence | as-written member | corrected member |
|---|---|---|---|---|---|---|
| crates/phonic_io/src/codec/spec.rs:161-189 | builder merge reconciles codec, byte rate, alignment and decoded spec but never looks at `sample_layout` | self = empty builder, other = builder from a signal with layout (2,2): the merge succeeds and the layout is lost; layouts (4,4) and (2,2) merge without error | fill the layout from other when absent and report ParamMismatch when both are present and differ, as `StreamSpec::merge` does | medium, not executed | StreamSpecs.MergeBuilderDropsLayout | StreamSpecs.MergeBuilderChecked |
| crates/phonic_dsp/src/utils/concat.rs:58-66 | every item returns 0 for an empty buffer, and the loop takes each 0 for the end of that item | one item with 5 samples ready, a read with an empty buffer: the cursor passes the item, and a later read with room for 10 reports the end | an empty buffer reads nothing and leaves the cursor in place | high, not executed | ConcatSignal.EmptyBufferSkipsData | ConcatSignal.ReadSpecFixed |
| crates/phonic_dsp/src/utils/concat.rs:43-46 | `pos` sums `inner.pos(i)` over `0..=current_i` | one empty item and a read with room for 10: the read reports the end with `current_i` equal to the item count, and `pos` then asks for item 1 of 1 | stop the range at the last item, so after the end `pos` is the sum of every item's position | medium, not executed | ConcatSignal.PosAfterEndOutOfRange | ConcatSignal.PosClamped |

# exopy_hqc_legacy: the AWG5014 compiler, the `.awg` file builder and the HQCMeas converter

This Dafny project models three integer- and byte-level parts of
exopy_hqc_legacy and proves properties of them.

- **The AWG5014 pulse context** (`awg_context.py`):
  - `compile_and_transfer_sequence` renders a flat list of pulses into
    per-channel sample buffers. Analog buffers start at 2^13 and wrap as
    `uint16`; marker buffers start at 0 and wrap as `int8`.
  - It range-checks every buffer with the `if/elif` chain and inverts the
    markers listed in `inverted_log_channels`.
  - It packs every sample into the word `analog + M1·2^14 + M2·2^15`,
    low byte first, and names the sequence of each used channel.
    With a driver, it hands the bytes to `_transfer_sequences`.
  - `compile_loop`, the loop mode, cuts the timeline into content
    intervals (`merge_intervals`), fills the gaps with a shared 256-sample
    zero block repeated `zcount` times plus a remainder block, and packs
    every block. Blocks are de-duplicated by the identity of their analog
    array.
- **The AWG file transfer task** (`transfer_awg_file_task.py`):
  - `_pack_record` writes the tagged records of the Tektronix `.awg` file.
  - `generate_awg_file` writes the header, channel, waveform and sequence
    sections.
  - `prepare_sequences` names and de-duplicates the blocks of every grid
    point and builds the sequencing table.
- **The HQCMeas → exopy converter** (`convert.py`):
  - the `update_*` rewrite rules;
  - the walk `iterate_on_sections`;
  - `fix_access_exs`;
  - the name of the converted file.

Where the source changes state step by step, the model does too:
- every loop is a Dafny loop, except the `for` loop of `fix_access_exs`,
  which recurses into the subsections it walks and is the recursive
  function `Convert.FixFrom`;
- the driver is a class whose methods log calls;
- a ConfigObj section is a class (`ConvertMethods.Config`) whose update
  methods reassign its entries.

Each such method is proved equal to a specification function. The
properties are proved about those functions.

Python object identity matters in two places:
- the in-place `+=` of `compile_loop`, which writes into the arrays its
  dictionaries share;
- the `id()` keys of `already_added`.

It is modelled explicitly: a store of arrays keyed by `Obj` (`AwgLoop`),
and the `Wave.id` field of a packed block (`AwgSequences`).

Modules:

| module | file | models |
|---|---|---|
| Common | common.dfy | bytes, little-endian integers, numpy wrap-around, `str(n)`, `s[:-k]` |
| Binary64 | binary64.dfy | `struct.pack('<d', n)` of a Python int: IEEE 754 binary64, rounded to nearest even |
| AwgContext | awg_context.dfy | pulses, sample buffers, numpy slice-add, the rendering loop |
| AwgCompile | awg_compile.dfy | range check, inversion, packing, sequence infos, the direct compilation |
| AwgTransfer | awg_transfer.dfy | the driver, `_transfer_sequences`, `compile_and_transfer_sequence` |
| AwgExamples | awg_examples.dfy | the pulse layouts of the context's test-suite |
| AwgIntervals | intervals.dfy | sorting, overlap merging, `merge_intervals` |
| AwgLayout | layout.dfy | the filler and content blocks and the repeats of `compile_loop` |
| AwgLoop | loop.dfy | the arrays of `compile_loop`, drawing, range check, inversion, packing |
| AwgLoopCompile | loop_compile.dfy | `compile_loop` as a whole, its outcomes |
| AwgLoopRun | loop_run.dfy | the loops of `compile_loop`, as methods |
| AwgFile | awg_file.dfy | `_pack_record`, the record reader, `generate_awg_file` |
| AwgSequences | awg_sequences.dfy | `prepare_sequences` |
| IniSection | ini_section.dfy | an ordered ConfigObj section |
| Convert | convert.dfy | `update_task`, `fix_access_exs` |
| ConvertRules | convert_rules.dfy | the other rules, `iterate_on_sections` |
| ConvertMethods | convert_methods.dfy | the rules and the walk, in place on a section |
| ConvertPath | convert_path.dfy | the new path of `convert_measure` |

## Model

| member | source | states |
|---|---|---|
| Common.LeRoundTrip | exopy_hqc_legacy/tasks/tasks/instr/transfer_awg_file_task.py:142 | little-endian encoding on `width` bytes decodes back to the value whenever it fits |
| Common.WrapU16 | exopy_hqc_legacy/pulses/contexts/awg_context.py:106-107 | numpy `uint16` arithmetic: the result lies in [0, 65536) |
| Common.WrapI8 | exopy_hqc_legacy/pulses/contexts/awg_context.py:109-111 | numpy `int8` arithmetic: the result lies in [-128, 127] |
| Common.TruncDiv | exopy_hqc_legacy/pulses/contexts/awg_context.py:308 | `int(a / b)` for b > 0 rounds toward zero: for a ≥ 0, `b·r ≤ a < b·r + b`, and for a < 0, `b·r - b < a ≤ b·r`, with r of the sign of a |
| Common.NatToStringInjective | exopy_hqc_legacy/tasks/tasks/instr/transfer_awg_file_task.py:313-314 | distinct numbers print differently |
| Common.DropLast | exopy_hqc_legacy/conversion/convert.py:344 | `s[:-k]` is the prefix of `s` of length `max(0, len(s) - k)`; followed by the last k characters it gives `s` back |
| AwgContext.SliceAdd | exopy_hqc_legacy/pulses/contexts/awg_context.py:123-128 | `buf[a:b] += w` keeps the buffer length; a waveform inside the buffer changes exactly the samples of [a, b), by wrapped addition |
| AwgContext.SliceAddPastEnd | exopy_hqc_legacy/pulses/contexts/awg_context.py:123 | a waveform running past the end raises when it has more than one sample; with one or none it changes nothing |
| AwgContext.RenderAll | exopy_hqc_legacy/pulses/contexts/awg_context.py:113-134 | the rendering loop, stopping at the first mismatch or exception; what it renders keeps every used channel's three buffers of length n |
| AwgContext.AccumulateIsWrappedSum | exopy_hqc_legacy/pulses/contexts/awg_context.py:123-128 | wrapping at every addition gives the total wrapped once: the order of pulses does not matter |
| AwgContext.RenderIsAccumulate | exopy_hqc_legacy/pulses/contexts/awg_context.py:113-128 | every sample after rendering equals the sample-wise reference fold over the pulses |
| AwgContext.RenderIsSum | exopy_hqc_legacy/pulses/contexts/awg_context.py:104-128 | each sample is its start value (2^13 analog, 0 marker) plus the samples of the non-zero-duration pulses covering it, wrapped; other samples are unchanged |
| AwgCompile.OverflowErrorsKeys | exopy_hqc_legacy/pulses/contexts/awg_context.py:136-153 | the errors name exactly the failing channels, each with the first failing sub-channel of the `if/elif` chain, so at most one per channel |
| AwgCompile.OverflowErrorsEmpty | exopy_hqc_legacy/pulses/contexts/awg_context.py:136-153 | there is no error exactly when every buffer passes the range check |
| AwgCompile.LogicalNotFlips | exopy_hqc_legacy/pulses/contexts/awg_context.py:159-161 | on 0/1 samples `np.logical_not(x, x)` flips every bit and is an involution |
| AwgCompile.InvertAllShape | exopy_hqc_legacy/pulses/contexts/awg_context.py:155-161 | inversion raises exactly when an entry names an unused channel; the analog buffers are untouched |
| AwgCompile.InvertAllFlips | exopy_hqc_legacy/pulses/contexts/awg_context.py:155-161 | each marker buffer is negated once per occurrence of its entry; no other buffer changes |
| AwgCompile.PackRoundTrip | exopy_hqc_legacy/pulses/contexts/awg_context.py:163-173 | byte 2i is the word's low byte and byte 2i+1 its high byte; decoding them recovers the analog value and both marker bits |
| AwgCompile.PackChannel | exopy_hqc_legacy/pulses/contexts/awg_context.py:165-173 | the packing loop fills 2n bytes, the low and high byte of every word |
| AwgCompile.ToSendOfSpec | exopy_hqc_legacy/pulses/contexts/awg_context.py:163-173 | one byte array per used channel, keyed by its number, holding its packed samples |
| AwgCompile.ListSequenceInfos | exopy_hqc_legacy/pulses/contexts/awg_context.py:478-493 | the template infos: the frequency 1e9 and `Seq_Ch1`..`Seq_Ch4` |
| AwgCompile.SequenceInfosSpec | exopy_hqc_legacy/pulses/contexts/awg_context.py:175-183 | the infos have the keys of `list_sequence_infos`; a used channel N is named `name_ChN`, the others `''` |
| AwgCompile.BuildInfos | exopy_hqc_legacy/pulses/contexts/awg_context.py:175-183 | the infos loop computes the infos of the used channels |
| AwgCompile.Extremes | exopy_hqc_legacy/pulses/contexts/awg_context.py:140 | the maximum and minimum of a non-empty array |
| AwgCompile.CheckChannel | exopy_hqc_legacy/pulses/contexts/awg_context.py:138-150 | the `if/elif` chain on one channel gives its first failing sub-channel |
| AwgCompile.MakeBuffers | exopy_hqc_legacy/pulses/contexts/awg_context.py:100-111 | every used channel gets n samples of 2^13 and two markers of n zeros |
| AwgCompile.RenderOne | exopy_hqc_legacy/pulses/contexts/awg_context.py:113-134 | one turn of the rendering loop, as the reference says |
| AwgCompile.RenderPulses | exopy_hqc_legacy/pulses/contexts/awg_context.py:113-134 | the rendering loop computes `RenderAll` |
| AwgCompile.CheckOverflows | exopy_hqc_legacy/pulses/contexts/awg_context.py:136-153 | the overflow loop raises exactly when there are used channels and the sequence is empty; otherwise it computes the error map |
| AwgCompile.InvertMarkers | exopy_hqc_legacy/pulses/contexts/awg_context.py:155-161 | the inversion loop computes the inverted buffers, or the KeyError |
| AwgCompile.PackAll | exopy_hqc_legacy/pulses/contexts/awg_context.py:163-173 | the packing loop computes the byte arrays to send |
| AwgCompile.CompileSequence | exopy_hqc_legacy/pulses/contexts/awg_context.py:79-187 | without a driver, the compilation returns the errors of preprocessing, or renders, checks, inverts and packs |
| AwgCompile.RenderAllFits | exopy_hqc_legacy/pulses/contexts/awg_context.py:113-134 | rendering succeeds when every pulse fits its buffer and matches its kind |
| AwgCompile.RenderAllFirstMismatch | exopy_hqc_legacy/pulses/contexts/awg_context.py:122-134 | rendering stops at the first kind mismatch when every earlier pulse fits |
| AwgCompile.CompileKindIssue | exopy_hqc_legacy/pulses/contexts/awg_context.py:122-134 | a kind mismatch fails with the single error `'Kind issue'` and empty infos; nothing is checked, packed or sent |
| AwgCompile.AnalogNeverNegative | exopy_hqc_legacy/pulses/contexts/awg_context.py:140 | analog samples are `uint16`, so the `min() < 0` test never fires |
| AwgCompile.RenderedOverflow | exopy_hqc_legacy/pulses/contexts/awg_context.py:136-150 | a buffer fails the range check exactly when one of its reference samples is out of range |
| AwgCompile.CompileOverflow | exopy_hqc_legacy/pulses/contexts/awg_context.py:136-153 | with every pulse fitting, compilation fails exactly when a sample is out of range, reporting per channel its first failing sub-channel, before inversion and packing |
| AwgCompile.CompileSuccessShape | exopy_hqc_legacy/pulses/contexts/awg_context.py:163-187 | success returns the infos of the used channels and one array of 2n bytes per used channel |
| AwgCompile.PackedSample | exopy_hqc_legacy/pulses/contexts/awg_context.py:155-173 | each sent sample decodes to the rendered analog value and each marker negated once per occurrence in `inverted_log_channels` |
| AwgCompile.CompileSucceeds | exopy_hqc_legacy/pulses/contexts/awg_context.py:79-187 | fitting, in-range pulses with used inverted channels compile successfully; the channel names, lengths and every byte sent are stated |
| AwgTransfer.SendAll | exopy_hqc_legacy/pulses/contexts/awg_context.py:503-506 | the first loop sends the sequence of each defined channel that has one, under its info name |
| AwgTransfer.SelectAll | exopy_hqc_legacy/pulses/contexts/awg_context.py:510-515 | the second loop selects each defined channel's sequence, or clears it when asked |
| AwgTransfer.OutputsOn | exopy_hqc_legacy/pulses/contexts/awg_context.py:518-520 | the third loop switches on the output of each channel with a sequence |
| AwgTransfer.TransferSequences | exopy_hqc_legacy/pulses/contexts/awg_context.py:499-523 | the driver's log gains the sends, then the selections, then the outputs and running; success is always reported |
| AwgTransfer.SendsFirst | exopy_hqc_legacy/pulses/contexts/awg_context.py:499-523 | every send comes before any other call |
| AwgTransfer.TransferSent | exopy_hqc_legacy/pulses/contexts/awg_context.py:503-506 | the sequences sent are exactly those of the defined channels that have one |
| AwgTransfer.TransferSelected | exopy_hqc_legacy/pulses/contexts/awg_context.py:508-515 | selection happens only with `select_after_transfer`: the frequency is set, then each defined channel selects or is cleared |
| AwgTransfer.TransferRun | exopy_hqc_legacy/pulses/contexts/awg_context.py:517-521 | outputs go on and the driver runs, last, exactly when `run_after_transfer` is set |
| AwgTransfer.CompiledNamed | exopy_hqc_legacy/pulses/contexts/awg_context.py:175-183 | a successful compilation names every channel it sends `name_ChN` |
| AwgTransfer.CompileAndTransferSequence | exopy_hqc_legacy/pulses/contexts/awg_context.py:185-190 | without a driver the compilation is returned and no driver call is made; with one, only a success is transferred |
| AwgExamples.SingleChannel | exopy_hqc_legacy/pulses/contexts/awg_context.py:163-183 | in-range pulses on channel 1 compile, name `<name>_Ch1` and send each word low byte first |
| AwgExamples.NearlyOverlappingM2 | tests/pulses/contexts/test_awg_context.py:232-255 | touching M2 pulses on [100, 600) compile; the high byte is 0x20, or 0xA0 inside the pulses |
| AwgExamples.OverflowM2 | tests/pulses/contexts/test_awg_context.py:291-304 | overlapping M2 pulses fail with the single error `Ch1_M2` |
| AwgExamples.OppositePulsesCancel | tests/pulses/contexts/test_awg_context.py:213-230 | opposite analog pulses on the same span cancel; every sample is sent at 2^13 |
| AwgIntervals.SortIntervalsSpec | exopy_hqc_legacy/pulses/contexts/awg_context.py:291 | the sort returns the same intervals in Python's tuple order |
| AwgIntervals.Coalesce | exopy_hqc_legacy/pulses/contexts/awg_context.py:292-299 | the nested `while` as a fold; the list never grows and keeps the first start |
| AwgIntervals.CoalesceInPlace | exopy_hqc_legacy/pulses/contexts/awg_context.py:206-213 | the nested `while` that joins neighbours in place (also at 292-299) computes `Coalesce` |
| AwgIntervals.AbsorbRun | exopy_hqc_legacy/pulses/contexts/awg_context.py:208-212 | the inner `while` absorbs following intervals into the previous one until the next one is at least `minGap` away, keeping the joining invariant |
| AwgIntervals.CoalesceGaps | exopy_hqc_legacy/pulses/contexts/awg_context.py:206-213 | after joining, consecutive intervals are at least `minGap` apart, whatever the input |
| AwgIntervals.CoalesceLengths | exopy_hqc_legacy/pulses/contexts/awg_context.py:206-213 | joining never makes an interval shorter than the shortest input |
| AwgIntervals.CoalesceCovers | exopy_hqc_legacy/pulses/contexts/awg_context.py:291-299 | on intervals sorted by start, every input interval lies inside an output interval |
| AwgIntervals.CoalesceCoversStretched | exopy_hqc_legacy/pulses/contexts/awg_context.py:200-213 | joining intervals that each stretch one of a list sorted by start (as the widening leaves them, unsorted) still covers every interval of that list |
| AwgIntervals.MergeIntervals | exopy_hqc_legacy/pulses/contexts/awg_context.py:192-216 | `merge_intervals` on the list in place computes the first fix, the widening, the joining and the last fix; IndexError on an empty list |
| AwgIntervals.MergeIntervalsSpecProps | exopy_hqc_legacy/pulses/contexts/awg_context.py:192-216 | the list is non-empty and never grows; consecutive gaps are at least 256; every interval but the last is at least 256 long; the trailing gap is at least 256 or the last stop is `len + 1` |
| AwgIntervals.MergeIntervalsCovers | exopy_hqc_legacy/pulses/contexts/awg_context.py:192-216 | on the pulse intervals `compile_loop` passes (sorted by start, ending within the sequence), every pulse interval from sample 1 on lies inside a merged interval |
| AwgIntervals.FixWidenWithin | exopy_hqc_legacy/pulses/contexts/awg_context.py:197-205 | the first fix and the widening only ever stretch an interval (from sample 1 on), to at least 256 samples |
| AwgLayout.FillerSplit | exopy_hqc_legacy/pulses/contexts/awg_context.py:342-343 | a gap of at least 256 is `zcount·256 + zrem` with 256 ≤ zrem < 512 |
| AwgLayout.FillerShortGap | exopy_hqc_legacy/pulses/contexts/awg_context.py:342-343 | a gap below 256 gets no zero block and a remainder 256 samples longer than the gap |
| AwgLayout.LeadBlocks | exopy_hqc_legacy/pulses/contexts/awg_context.py:307-322 | the filler before the first interval, when it does not start at 1 |
| AwgLayout.IntervalBlocks | exopy_hqc_legacy/pulses/contexts/awg_context.py:324-359 | one interval: its content block, the gap's repeats, and the gap's blocks unless nothing remains |
| AwgLayout.BuildLayout | exopy_hqc_legacy/pulses/contexts/awg_context.py:305-359 | the filler and content loops build the blocks and repeats of the layout function |
| AwgLayout.RepeatsCount | exopy_hqc_legacy/pulses/contexts/awg_context.py:337-359 | one repeat per block, plus one per interval with nothing remaining after it |
| AwgLayout.ExpandGap | exopy_hqc_legacy/pulses/contexts/awg_context.py:342-359 | a gap of at least 256 samples expands to exactly its length |
| AwgLayout.ExpandedLength | exopy_hqc_legacy/pulses/contexts/awg_context.py:305-359 | on merged intervals, the blocks played with their repeats last exactly `sequence_length` samples |
| AwgLoop.MarkerFollowsAnalog | exopy_hqc_legacy/pulses/contexts/awg_context.py:315-335 | positions sharing their analog array share their marker arrays |
| AwgLoop.GapBlocksShared | exopy_hqc_legacy/pulses/contexts/awg_context.py:352-359 | one zero and one remainder array serve every channel and both markers |
| AwgLoop.Locate | exopy_hqc_legacy/pulses/contexts/awg_context.py:384-387 | the first interval whose stop is at least the start, or the IndexError |
| AwgLoop.DictIndex | exopy_hqc_legacy/pulses/contexts/awg_context.py:333-335 | the interval dictionaries are keyed by value, so an interval listed twice maps to its last block |
| AwgLoop.DrawPulse | exopy_hqc_legacy/pulses/contexts/awg_context.py:376-405 | one turn of the rendering loop: a zero-duration pulse changes nothing, a start past every interval is an IndexError, a kind mismatch stops; the store keeps its shape |
| AwgLoop.DrawAllKeepsGaps | exopy_hqc_legacy/pulses/contexts/awg_context.py:376-399 | drawing only writes into content arrays; zero and remainder arrays keep their contents |
| AwgLoop.DrawAllMismatch | exopy_hqc_legacy/pulses/contexts/awg_context.py:400-405 | a pulse of the wrong kind stops the drawing with a kind issue |
| AwgLoop.DrawAllSplit | exopy_hqc_legacy/pulses/contexts/awg_context.py:376-405 | drawing a list is drawing a prefix, then the rest |
| AwgLoop.CheckBlocksRaise | exopy_hqc_legacy/pulses/contexts/awg_context.py:410-414 | the inner loop raises exactly when one of the channel's blocks is empty |
| AwgLoop.CheckBlocksKeys | exopy_hqc_legacy/pulses/contexts/awg_context.py:409-424 | the inner loop adds `<ch>_<sub>` for every sub-channel that some block reports |
| AwgLoop.CheckAllSpec | exopy_hqc_legacy/pulses/contexts/awg_context.py:407-427 | the range check raises exactly when a block is empty; otherwise the keys are exactly the reported sub-channels |
| AwgLoop.CheckAllClean | exopy_hqc_legacy/pulses/contexts/awg_context.py:426-427 | an empty traceback means every block of every used channel passed |
| AwgLoop.InvertLoop | exopy_hqc_legacy/pulses/contexts/awg_context.py:429-437 | the inversion loop, raising KeyError on an unused channel; what it keeps is stated by `InvertLoopRaises` and `InvertLoopNegates` |
| AwgLoop.NegatedFlipped | exopy_hqc_legacy/pulses/contexts/awg_context.py:434 | on 0/1 samples, negating k times is negating `k mod 2` times |
| AwgLoop.InvertBlocksNegates | exopy_hqc_legacy/pulses/contexts/awg_context.py:433-437 | the walk over a channel's list negates an array once per position holding it |
| AwgLoop.InvertLoopRaises | exopy_hqc_legacy/pulses/contexts/awg_context.py:429-437 | inversion raises exactly when an entry names an unused channel |
| AwgLoop.InvertLoopNegates | exopy_hqc_legacy/pulses/contexts/awg_context.py:429-437 | the whole loop negates an array once per hit of every entry's walk |
| AwgLoop.InvertLoopKeepsAnalog | exopy_hqc_legacy/pulses/contexts/awg_context.py:429-437 | inversion never touches an analog array |
| AwgLoop.HitsShared | exopy_hqc_legacy/pulses/contexts/awg_context.py:317-322 | a gap's marker array is met at every position of its slot, whatever the channel and marker |
| AwgLoop.WalksShared | exopy_hqc_legacy/pulses/contexts/awg_context.py:429-437 | every entry negates a gap's marker array as often as its slot occurs |
| AwgLoop.WalksFill | exopy_hqc_legacy/pulses/contexts/awg_context.py:429-437 | a content block is negated once per entry naming its own channel and marker |
| AwgLoop.SameAnalogSameBlob | exopy_hqc_legacy/pulses/contexts/awg_context.py:441-462 | positions sharing an analog array pack to the same value, so the identity key loses nothing |
| AwgLoop.Packed | exopy_hqc_legacy/pulses/contexts/awg_context.py:439-462 | one packed block per position for every used channel, keyed by the channel |
| AwgLoopCompile.PulseIntervalsSpec | exopy_hqc_legacy/pulses/contexts/awg_context.py:283-288 | the intervals are exactly those of the non-zero-duration pulses |
| AwgLoopCompile.MakePlan | exopy_hqc_legacy/pulses/contexts/awg_context.py:280-374 | with `factor`: sort, join, `merge_intervals`, then the layout; without it, one block of the whole sequence; a plan has intervals and the sequence length |
| AwgLoopCompile.MakePlanRaises | exopy_hqc_legacy/pulses/contexts/awg_context.py:280-303 | making the plan fails exactly when it factors and no pulse has a duration |
| AwgLoopCompile.MakePlanCounts | exopy_hqc_legacy/pulses/contexts/awg_context.py:346-374 | without `factor`, one block and one repeat; with it, one repeat per block plus one per interval that leaves no gap |
| AwgLoopCompile.LoopKindIssue | exopy_hqc_legacy/pulses/contexts/awg_context.py:400-405 | a kind mismatch fails with the single error `'Kind issue'` and the five-tuple |
| AwgLoopCompile.LoopOverflow | exopy_hqc_legacy/pulses/contexts/awg_context.py:407-427 | after drawing, an empty block raises; otherwise failure lists the failing sub-channels |
| AwgLoopCompile.FinishSuccess | exopy_hqc_legacy/pulses/contexts/awg_context.py:407-437 | success means every block passed and every inverted channel is used |
| AwgLoopCompile.LoopSuccessChecked | exopy_hqc_legacy/pulses/contexts/awg_context.py:407-437 | a success drew every pulse and passed every check |
| AwgLoopCompile.LoopSuccessShape | exopy_hqc_legacy/pulses/contexts/awg_context.py:439-475 | success returns the used channels' infos, the plan's repeats, and one packed block per position per used channel |
| AwgLoopCompile.WordBits | exopy_hqc_legacy/pulses/contexts/awg_context.py:451-453 | the word of in-range samples fits 16 bits and keeps the analog sample in its low 14 bits |
| AwgLoopCompile.LoopWords | exopy_hqc_legacy/pulses/contexts/awg_context.py:451-461 | with `for_file`, every word fits 16 bits and carries the drawn analog sample |
| AwgLoopCompile.GapArrays | exopy_hqc_legacy/pulses/contexts/awg_context.py:317-322 | a gap's analog array keeps 2^13; its marker array is zeros negated once per inverted entry and occurrence |
| AwgLoopCompile.LoopGapWords | exopy_hqc_legacy/pulses/contexts/awg_context.py:429-462 | a gap block packs, in every channel alike, to 2^13 with both markers equal to the parity of those negations |
| AwgLoopRun.CollectIntervals | exopy_hqc_legacy/pulses/contexts/awg_context.py:282-288 | the loop collects `PulseIntervals` |
| AwgLoopRun.BuildPlan | exopy_hqc_legacy/pulses/contexts/awg_context.py:280-374 | the intervals, blocks and repeats of `MakePlan` |
| AwgLoopRun.FindInterval | exopy_hqc_legacy/pulses/contexts/awg_context.py:384-387 | the `while` finds `Locate`'s interval, or runs off the list |
| AwgLoopRun.DrawOne | exopy_hqc_legacy/pulses/contexts/awg_context.py:376-405 | one turn of the rendering loop computes `DrawPulse` |
| AwgLoopRun.DrawPulses | exopy_hqc_legacy/pulses/contexts/awg_context.py:376-405 | the rendering loop computes `DrawAll` |
| AwgLoopRun.CheckBlock | exopy_hqc_legacy/pulses/contexts/awg_context.py:411-424 | the `if/elif` chain on one block, or the ValueError of an empty one |
| AwgLoopRun.CheckLoopChannel | exopy_hqc_legacy/pulses/contexts/awg_context.py:410-424 | the inner loop computes the traceback of `CheckBlocks` |
| AwgLoopRun.CheckLoopOverflows | exopy_hqc_legacy/pulses/contexts/awg_context.py:407-427 | the range check over the used channels |
| AwgLoopRun.InvertLoopChannel | exopy_hqc_legacy/pulses/contexts/awg_context.py:433-437 | negates the marker arrays of one channel's list, in order |
| AwgLoopRun.InvertLoopMarkers | exopy_hqc_legacy/pulses/contexts/awg_context.py:429-437 | the inversion loop computes `InvertLoop` |
| AwgLoopRun.PackLoopChannel | exopy_hqc_legacy/pulses/contexts/awg_context.py:444-461 | a block whose analog array was seen reuses that packing; others are packed and recorded |
| AwgLoopRun.PackLoopWaveforms | exopy_hqc_legacy/pulses/contexts/awg_context.py:439-462 | the packing loop gives every channel's `Packed` list |
| AwgLoopRun.CompileLoop | exopy_hqc_legacy/pulses/contexts/awg_context.py:218-475 | `compile_loop(sequence, for_file, factor)` computes the outcome of `AwgLoopCompile` |
| AwgFile.AsciiRoundTrip | exopy_hqc_legacy/tasks/tasks/instr/transfer_awg_file_task.py:139 | decoding ASCII-encoded text gives it back |
| AwgFile.ClassifyBuilt | exopy_hqc_legacy/tasks/tasks/instr/transfer_awg_file_task.py:130-136 | `'<n>H'` is read as n unsigned shorts and `'<n>s'` as a string |
| AwgFile.PackIntRoundTrip | exopy_hqc_legacy/tasks/tasks/instr/transfer_awg_file_task.py:131 | `struct.pack('<' + code, v)` unpacks back to v |
| AwgFile.PackDataWidths | exopy_hqc_legacy/tasks/tasks/instr/transfer_awg_file_task.py:130-136 | `'h'` gives 2 bytes, `'l'` 4, `'<n>H'` 2n, a string its ASCII bytes, and an int under `'d'` its binary64 bytes, 8 of them whenever it is below 2^53 in magnitude |
| Binary64.IntToDoubleExact | exopy_hqc_legacy/tasks/tasks/instr/transfer_awg_file_task.py:131 | `struct.pack('<d', n)` for 0 < abs(n) < 2^53 decodes to the sign of n and a significand and exponent whose value is exactly abs(n) |
| Binary64.IntToDoubleNearest | exopy_hqc_legacy/tasks/tasks/instr/transfer_awg_file_task.py:131 | for abs(n) ≥ 2^53 the packed double is within half a unit in the last place of abs(n) |
| Binary64.IntToDoubleRange | exopy_hqc_legacy/tasks/tasks/instr/transfer_awg_file_task.py:131 | the packing succeeds below 2^1023 in magnitude and raises OverflowError from 2^1024 on |
| AwgFile.PackRecord | exopy_hqc_legacy/tasks/tasks/instr/transfer_awg_file_task.py:104-145 | a record fails exactly when the name or data cannot be packed (an int under `'d'` packs as a double); its length is `8 + len(name) + 1 + len(data)` |
| AwgFile.ReadPackedRecord | exopy_hqc_legacy/tasks/tasks/instr/transfer_awg_file_task.py:138-145 | reading back a packed record gives its name, its data and whatever followed |
| AwgFile.PackAllAppend | exopy_hqc_legacy/tasks/tasks/instr/transfer_awg_file_task.py:186-264 | writing two lists of records is writing their concatenation |
| AwgFile.PackAllReads | exopy_hqc_legacy/tasks/tasks/instr/transfer_awg_file_task.py:263-264 | a buffer of packed records reads back as exactly those records, in order |
| AwgFile.PackAllPrefixNone | exopy_hqc_legacy/tasks/tasks/instr/transfer_awg_file_task.py:263-264 | one failing record makes the whole buffer fail |
| AwgFile.LeastName | exopy_hqc_legacy/tasks/tasks/instr/transfer_awg_file_task.py:228 | every non-empty set of names has a least one |
| AwgFile.SortedKeys | exopy_hqc_legacy/tasks/tasks/instr/transfer_awg_file_task.py:227-228 | `sorted(keys)`: strictly increasing and holding exactly the keys |
| AwgFile.SortedUnique | exopy_hqc_legacy/tasks/tasks/instr/transfer_awg_file_task.py:228 | two sorted lists of the same names are the same list |
| AwgFile.SequenceConfig | exopy_hqc_legacy/tasks/tasks/instr/transfer_awg_file_task.py:191-209 | the 17 settings of `sequence_cfg`, in insertion order |
| AwgFile.WriteHead | exopy_hqc_legacy/tasks/tasks/instr/transfer_awg_file_task.py:186-212 | `head_str` holds MAGIC, VERSION and the packed settings, or fails on a missing format |
| AwgFile.WriteChannels | exopy_hqc_legacy/tasks/tasks/instr/transfer_awg_file_task.py:215-221 | `ch_record_str` holds the packed settings the channel table knows |
| AwgFile.SortedNames | exopy_hqc_legacy/tasks/tasks/instr/transfer_awg_file_task.py:227-228 | the sorted names of `packed_waveforms` |
| AwgFile.WriteWaveforms | exopy_hqc_legacy/tasks/tasks/instr/transfer_awg_file_task.py:224-242 | `wf_record_str` holds five records per waveform, numbered from 21 in sorted order |
| AwgFile.WriteGroups | exopy_hqc_legacy/tasks/tasks/instr/transfer_awg_file_task.py:229-242 | the loop over the sorted names writes `WaveformEntries` |
| AwgFile.WriteSequence | exopy_hqc_legacy/tasks/tasks/instr/transfer_awg_file_task.py:244-261 | `seq_record_str`: per row WAIT, LOOP, JUMP, GOTO, then one name per channel; IndexError on a short list |
| AwgFile.WriteRowNames | exopy_hqc_legacy/tasks/tasks/instr/transfer_awg_file_task.py:255-261 | the inner loop writes one waveform reference per channel of `wfname_l` |
| AwgFile.GenerateAwgFile | exopy_hqc_legacy/tasks/tasks/instr/transfer_awg_file_task.py:147-266 | the file is the four buffers concatenated, or fails when one fails |
| AwgFile.AwgFileEntries | exopy_hqc_legacy/tasks/tasks/instr/transfer_awg_file_task.py:263-264 | the file packs the header, channel, waveform and sequence records in that order |
| AwgFile.AwgFileReads | exopy_hqc_legacy/tasks/tasks/instr/transfer_awg_file_task.py:263-264 | reading the file back gives exactly those records |
| AwgFile.AwgFileMagic | exopy_hqc_legacy/tasks/tasks/instr/transfer_awg_file_task.py:186-189 | the file starts with the MAGIC = 5000 record, then VERSION = 1 |
| AwgFile.HeadLayout | exopy_hqc_legacy/tasks/tasks/instr/transfer_awg_file_task.py:186-212 | the header is MAGIC, VERSION, then every setting with its head format; it fails exactly when a setting has none |
| AwgFile.ChannelKept | exopy_hqc_legacy/tasks/tasks/instr/transfer_awg_file_task.py:215-221 | a channel setting is written exactly when the table has its `k[:-1] + 'N'` key |
| AwgFile.WaveformLayout | exopy_hqc_legacy/tasks/tasks/instr/transfer_awg_file_task.py:224-242 | group j is the five records of the j-th sorted name, numbered 21 + j |
| AwgFile.WaveformGroups | exopy_hqc_legacy/tasks/tasks/instr/transfer_awg_file_task.py:224-242 | every waveform gets exactly one group, at its place in sorted order |
| AwgFile.WaveformGroupData | exopy_hqc_legacy/tasks/tasks/instr/transfer_awg_file_task.py:232-241 | name with a NUL, type 1, the length as a signed 32-bit integer, and the words low byte first |
| AwgFile.ShortsLowFirst | exopy_hqc_legacy/tasks/tasks/instr/transfer_awg_file_task.py:240-241 | `'<n>H'` writes word k as bytes 2k (low) and 2k + 1 (high) |
| AwgFile.RowNamesLayout | exopy_hqc_legacy/tasks/tasks/instr/transfer_awg_file_task.py:255-261 | the references of row i: one per channel of `wfname_l`, in its order |
| AwgFile.SequenceFits | exopy_hqc_legacy/tasks/tasks/instr/transfer_awg_file_task.py:245-261 | the sequence section fails exactly when some list is shorter than `trig_wait` |
| AwgFile.SequenceRows | exopy_hqc_legacy/tasks/tasks/instr/transfer_awg_file_task.py:244-261 | the sequence section is the rows of the table one after the other |
| AwgSequences.Fill | exopy_hqc_legacy/tasks/tasks/instr/transfer_awg_file_task.py:347 | `np.ones(n, uint16) * v`: n copies of v |
| AwgSequences.KeyNameInjective | exopy_hqc_legacy/tasks/tasks/instr/transfer_awg_file_task.py:313-315 | two keys with the same name `<iter>_Ch<ch>_<pos>` or `Standby_Ch<ch>` are the same key |
| AwgSequences.PackedByName | exopy_hqc_legacy/tasks/tasks/instr/transfer_awg_file_task.py:315 | `packed_waveforms` keyed by name keeps every stored block's words under its own name |
| AwgSequences.First | exopy_hqc_legacy/tasks/tasks/instr/transfer_awg_file_task.py:306-337 | `is_first_ch`: the first defined channel with blocks at a grid point |
| AwgSequences.BlockRows | exopy_hqc_legacy/tasks/tasks/instr/transfer_awg_file_task.py:325-336 | rows of a grid point: repeat per block, wait only at position 0 with `wait_trigger`, goto 0, jump 1 with `start_with_event` |
| AwgSequences.PlaceRows | exopy_hqc_legacy/tasks/tasks/instr/transfer_awg_file_task.py:325-336 | only the first channel with blocks adds rows, one per new position |
| AwgSequences.FirstSnoc | exopy_hqc_legacy/tasks/tasks/instr/transfer_awg_file_task.py:307-337 | the first channel with blocks stays first once found |
| AwgSequences.FinishRows | exopy_hqc_legacy/tasks/tasks/instr/transfer_awg_file_task.py:339-350 | the standby row (0, 0, 2, 0) is prepended with `start_with_event`; the last row's goto becomes 2 or 1 |
| AwgSequences.PrepareTable | exopy_hqc_legacy/tasks/tasks/instr/transfer_awg_file_task.py:269-350 | the four lists have one entry per row: the standby row, then every grid point's rows; only the last row has a goto |
| AwgSequences.GridRowsPlain | exopy_hqc_legacy/tasks/tasks/instr/transfer_awg_file_task.py:325-336 | every grid row has goto 0, jump 1 exactly with `start_with_event`, and waits only with `wait_trigger` |
| AwgSequences.StoreRefs | exopy_hqc_legacy/tasks/tasks/instr/transfer_awg_file_task.py:310-323 | storing a block appends its words to its channel's list and keeps every reference right |
| AwgSequences.StoreKey | exopy_hqc_legacy/tasks/tasks/instr/transfer_awg_file_task.py:311-318 | a block is stored under the key of its first occurrence; nothing stored before changes |
| AwgSequences.FinishRefs | exopy_hqc_legacy/tasks/tasks/instr/transfer_awg_file_task.py:339-348 | with `start_with_event` each channel's list starts with `Standby_Ch<ch>`, 256 samples of 2^13 |
| AwgSequences.PrepareRefs | exopy_hqc_legacy/tasks/tasks/instr/transfer_awg_file_task.py:305-348 | every reference of `wfname_l` names a stored block holding the words met at that place |
| AwgSequences.LoopWavesConsistent | exopy_hqc_legacy/pulses/contexts/awg_context.py:445-462 | blocks sharing an analog array hold the same words, so the identity de-duplication never merges different blocks |
| AwgSequences.PlaceWaves | exopy_hqc_legacy/tasks/tasks/instr/transfer_awg_file_task.py:309-336 | the loop over one channel's blocks computes `PlaceAll` |
| AwgSequences.PrepareIteration | exopy_hqc_legacy/tasks/tasks/instr/transfer_awg_file_task.py:305-337 | the loop over the defined channels at one grid point computes `Iteration` |
| AwgSequences.AddStandby | exopy_hqc_legacy/tasks/tasks/instr/transfer_awg_file_task.py:344-347 | each channel of the last grid point gets a standby block at the head of its list; KeyError otherwise |
| AwgSequences.PrepareSequences | exopy_hqc_legacy/tasks/tasks/instr/transfer_awg_file_task.py:269-358 | `prepare_sequences` computes `PrepareSpec`, whose table and references are stated by `PrepareTable` and `PrepareRefs` |
| IniSection.GetSpec | exopy_hqc_legacy/conversion/convert.py:114 | a key is found exactly when some entry has it, with the first such entry's value |
| IniSection.Put | exopy_hqc_legacy/conversion/convert.py:149 | after `s[k] = v`, k holds v and every other key keeps its value; a new key goes last |
| IniSection.Del | exopy_hqc_legacy/conversion/convert.py:150 | `del s[k]`: the key goes, or a KeyError when it is absent |
| IniSection.Rename | exopy_hqc_legacy/conversion/convert.py:152 | `rename` raises KeyError when the key is absent; otherwise the new key holds the old value, the old key is gone, the others are kept |
| IniSection.SubNames | exopy_hqc_legacy/conversion/convert.py:112 | `sections`: exactly the names of the subsections |
| Convert.Retag | exopy_hqc_legacy/conversion/convert.py:146-151 | a missing class raises KeyError and an unknown one ValueError; otherwise the id and dependency type are set and the class removed |
| Convert.RenameChildren | exopy_hqc_legacy/conversion/convert.py:154-157 | the renaming loop, as a function that never grows the section; its behaviour is stated by the four `RenameChildren*` lemmas |
| Convert.RenameChildrenStops | exopy_hqc_legacy/conversion/convert.py:155 | the loop stops at the first missing index, keeping the keys unique |
| Convert.RenameChildrenMoves | exopy_hqc_legacy/conversion/convert.py:156 | each `children_task_j` below the stop becomes `children_j` with its value |
| Convert.RenameChildrenKeeps | exopy_hqc_legacy/conversion/convert.py:154-157 | every key not renamed keeps its value |
| Convert.RenameChildrenGap | exopy_hqc_legacy/conversion/convert.py:154-157 | past the first missing index, a later `children_task_m` keeps its name and value |
| Convert.RemoveFirst | exopy_hqc_legacy/conversion/convert.py:117 | `del l[l.index(x)]` removes the first x and keeps the rest in order |
| Convert.SplitEx | exopy_hqc_legacy/conversion/convert.py:111 | `ex.split('_')` into two parts, or ValueError unless exactly one underscore |
| Convert.Record | exopy_hqc_legacy/conversion/convert.py:127-131 | with no `access_exs` or a dictionary there, the entry is added at its depth, the dictionary's other entries and every other key kept; a list there is a RuntimeError, anything else a ValueError |
| Convert.Target | exopy_hqc_legacy/conversion/convert.py:121-131 | a task without `task_class` is a KeyError; a loop task records an entry outside its own on its `task` child one level deeper (KeyError without one, AttributeError when it is not a subsection), any other task on itself, every other key kept |
| Convert.FixAccessExs | exopy_hqc_legacy/conversion/convert.py:102-132 | the walk of `fix_access_exs`; an exception without exactly one `_` is a ValueError; on success every entry keeps its key, its kind and its scalar value, and the section does not grow; the cases of the walk are the `FixFrom*` lemmas |
| Convert.ReshapedGet | exopy_hqc_legacy/conversion/convert.py:112-132 | the walk keeps every scalar entry of a section where it finds it |
| Convert.FixFromDescended | exopy_hqc_legacy/conversion/convert.py:114-119 | a subsection listing the exception loses its first occurrence and is walked one level deeper; the later subsections are walked one level deeper too |
| Convert.FixFromRecorded | exopy_hqc_legacy/conversion/convert.py:120-132 | the first subsection whose `task_name` matches gets the entry recorded at the depth reached (on its child for a loop task and a foreign entry), and the walk stops there, later entries untouched |
| Convert.FixFromPassed | exopy_hqc_legacy/conversion/convert.py:112-132 | any other entry is kept and the walk goes on at the same depth |
| Convert.FixAll | exopy_hqc_legacy/conversion/convert.py:170-171 | the loop over the exceptions; on success the section keeps its keys and scalars in order |
| Convert.FixAllSteps | exopy_hqc_legacy/conversion/convert.py:170-171 | when the loop succeeds, each exception in turn is pushed down from the task at depth 1 into what the earlier ones left |
| Convert.AccessExs | exopy_hqc_legacy/conversion/convert.py:163-173 | the handling of `access_exs`, never growing the section; its cases are stated by `AccessExsSpec` |
| Convert.AccessExsSpec | exopy_hqc_legacy/conversion/convert.py:163-173 | what becomes of `access_exs` in each of its four cases |
| Convert.AccessExsKeeps | exopy_hqc_legacy/conversion/convert.py:163-173 | every other key keeps its scalar value |
| Convert.UpdateTask | exopy_hqc_legacy/conversion/convert.py:135-173 | a missing `task_class` is a KeyError and an unknown one a ValueError naming it; success never grows the section |
| Convert.UpdateTaskSets | exopy_hqc_legacy/conversion/convert.py:149-152 | on a known class: `task_id` and `dep_type` set, the class removed, `task_name` renamed to `name` |
| Convert.UpdateTaskDrops | exopy_hqc_legacy/conversion/convert.py:159-165 | the driver and profile selections are dropped, and an empty list of exceptions |
| Convert.UpdateTaskKeeps | exopy_hqc_legacy/conversion/convert.py:135-173 | every untouched key that is not a child's keeps its scalar value |
| ConvertRules.UpdateInterface | exopy_hqc_legacy/conversion/convert.py:176-196 | a missing class is a KeyError; transfer interfaces only get `__to_clear__` and keep all else; a class outside `INTERFACES` raises ValueError; otherwise `interface_id` and `dep_type` are set and the class removed |
| ConvertRules.WithModulationKeeps | exopy_hqc_legacy/conversion/convert.py:211-214 | only the modulation changes |
| ConvertRules.UpdateItemSets | exopy_hqc_legacy/conversion/convert.py:203-210 | the item's new id and dependency type, and the class removed; a pulse's modulation tags are stated by `UpdateItemWith` and `WithModulation` |
| ConvertRules.UpdateItemKeeps | exopy_hqc_legacy/conversion/convert.py:199-214 | every other entry is kept, and the modulation of anything but a pulse |
| ConvertRules.UpdateShape | exopy_hqc_legacy/conversion/convert.py:217-226 | a missing class is a KeyError; success exactly for a class in `SHAPES`, setting `shape_id` and `dep_type`, removing the class and keeping the rest |
| ConvertRules.UpdateContext | exopy_hqc_legacy/conversion/convert.py:229-238 | retagged through `CONTEXTS`, or a ValueError |
| ConvertRules.DropRulesGet | exopy_hqc_legacy/conversion/convert.py:251-255 | exactly the `rule_` and `custom_` entries are dropped |
| ConvertRules.UpdateMonitorOk | exopy_hqc_legacy/conversion/convert.py:241-259 | `update_monitor` succeeds exactly when `id` and a list `undisplayed` are present; otherwise the KeyError or TypeError it raises |
| ConvertRules.UpdateMonitorSets | exopy_hqc_legacy/conversion/convert.py:245-258 | no id or measure name, three more undisplayed names, the two new rules and no other rule or custom entry |
| ConvertRules.UpdateMonitorKeeps | exopy_hqc_legacy/conversion/convert.py:241-259 | every other entry is kept |
| ConvertRules.Choose | exopy_hqc_legacy/conversion/convert.py:277-281 | the first rule whose key the section holds |
| ConvertRules.Iterate | exopy_hqc_legacy/conversion/convert.py:261-287 | `iterate_on_sections` as a function that never grows the section; its properties are the `Iterate*` lemmas |
| ConvertRules.IterateScalars | exopy_hqc_legacy/conversion/convert.py:275-287 | the walk leaves every scalar entry as it was |
| ConvertRules.IterateKeys | exopy_hqc_legacy/conversion/convert.py:275-287 | the walk adds no key |
| ConvertRules.IterateMatched | exopy_hqc_legacy/conversion/convert.py:282-283 | a subsection no rule matches makes the walk fail |
| ConvertRules.IterateClean | exopy_hqc_legacy/conversion/convert.py:285-287 | the result holds no subsection marked for removal, at any depth |
| ConvertRules.IterateEntry | exopy_hqc_legacy/conversion/convert.py:275-287 | each subsection of a successful walk is converted by its first matching rule; it is gone when the rule marked it for removal, otherwise it stays under its key as the walk of its converted self |
| ConvertRules.IterateActionFails | exopy_hqc_legacy/conversion/convert.py:284 | a rule whose action fails on a subsection makes the walk fail |
| ConvertRules.ConvertTasks | exopy_hqc_legacy/conversion/convert.py:313-321 | a failure of `update_task` on the root is returned; a success leaves no subsection marked for removal, at any depth |
| ConvertRules.ConvertTasksEntry | exopy_hqc_legacy/conversion/convert.py:313-321 | after `update_task` on the root, each of its subsections is removed when its rule marks it, and otherwise kept as its converted self |
| ConvertMethods.Config.Retag | exopy_hqc_legacy/conversion/convert.py:146-151 | in place, the result of `Convert.Retag`; an error leaves the section unchanged |
| ConvertMethods.Config.UpdateTask | exopy_hqc_legacy/conversion/convert.py:135-173 | in place, the result of `Convert.UpdateTask` |
| ConvertMethods.Config.UpdateTaskWith | exopy_hqc_legacy/conversion/convert.py:135-173 | in place, the result of `Convert.UpdateTaskWith` |
| ConvertMethods.Config.Named | exopy_hqc_legacy/conversion/convert.py:146-152 | an unknown class is reported before anything changes |
| ConvertMethods.Config.RenameChildren | exopy_hqc_legacy/conversion/convert.py:154-157 | the `while` loop leaves `Convert.RenameChildren`'s section |
| ConvertMethods.Config.DropSelections | exopy_hqc_legacy/conversion/convert.py:159-161 | the selections are deleted when present |
| ConvertMethods.Config.AccessExs | exopy_hqc_legacy/conversion/convert.py:163-173 | in place, the result of `Convert.AccessExs` |
| ConvertMethods.Config.UpdateInterface | exopy_hqc_legacy/conversion/convert.py:176-196 | in place, the result of `ConvertRules.UpdateInterface`; an error leaves it unchanged |
| ConvertMethods.Config.UpdateItem | exopy_hqc_legacy/conversion/convert.py:199-214 | in place, the result of `ConvertRules.UpdateItem` |
| ConvertMethods.Config.UpdateShape | exopy_hqc_legacy/conversion/convert.py:217-226 | in place, the result of `ConvertRules.UpdateShape`; an error leaves it unchanged |
| ConvertMethods.Config.UpdateContext | exopy_hqc_legacy/conversion/convert.py:229-238 | in place, the result of `ConvertRules.UpdateContext`; an error leaves it unchanged |
| ConvertMethods.Config.UpdateMonitor | exopy_hqc_legacy/conversion/convert.py:241-259 | in place, the result of `ConvertRules.UpdateMonitor` |
| ConvertMethods.Config.DropRules | exopy_hqc_legacy/conversion/convert.py:251-255 | the loop over a snapshot of the keys deletes every rule and custom entry |
| ConvertMethods.Config.IterateOnSections | exopy_hqc_legacy/conversion/convert.py:261-287 | the walk in place computes `ConvertRules.Iterate` |
| ConvertMethods.Config.ConvertTasks | exopy_hqc_legacy/conversion/convert.py:313-321 | in place, the result of `ConvertRules.ConvertTasks` |
| ConvertMethods.FindRule | exopy_hqc_legacy/conversion/convert.py:277-281 | the search loop returns `Choose`'s rule |
| ConvertMethods.WalkFromVisitErr | exopy_hqc_legacy/conversion/convert.py:282-284 | a failing visit makes the walk fail there |
| ConvertMethods.FixAllErr | exopy_hqc_legacy/conversion/convert.py:170-171 | once a `fix_access_exs` call fails, the loop fails with that error |
| ConvertPath.Basename | exopy_hqc_legacy/conversion/convert.py:342 | `basename`: a slash-free suffix of the path |
| ConvertPath.Join | exopy_hqc_legacy/conversion/convert.py:341 | `join`: an absolute name replaces the folder; otherwise one `/` separates them |
| ConvertPath.NewPathSuffix | exopy_hqc_legacy/conversion/convert.py:340-344 | the new path always ends in `.meas.ini` |
| ConvertPath.NewPathInPlace | exopy_hqc_legacy/conversion/convert.py:343-344 | without a folder, `x.ini` becomes `x.meas.ini` |
| ConvertPath.NewPathInFolder | exopy_hqc_legacy/conversion/convert.py:340-342 | with one, the base name with `.ini` replaced, inside that folder |

## Left out

- The float front-end of the compiler is not modelled:
  `preprocess_sequence` (in exopy_pulses), `time_to_index`, `round` and
  `np.rint(8191*w)`. A pulse carries its start sample and its quantised
  waveform. The sequence length is a parameter. The errors of
  preprocessing are a parameter too.
- The iteration order of the `used_channels` set is an explicit parameter
  `order`.
- The sampling frequency is a `real` copied into the infos.
- The driver is abstract: it records the calls it receives. Exceptions a
  real driver could raise are not modelled.
- In `transfer_awg_file_task.py`, these are left out: `check`, `perform`
  (the upload and the timeout loop), the preference and database
  observers, and `write_in_database`.
- The float records of the file (SAMPLING_RATE, the thresholds, the
  trigger rate) are given by their binary64 bytes. The trigger rate is a
  parameter. An int under a `'d'` format is converted (`Binary64`);
  Python floats themselves are not modelled, and float codes other than
  `'d'` are not either.
- The driver's tables `AWG_FILE_FORMAT_HEAD` and `AWG_FILE_FORMAT_CHANNEL`
  are parameters.
- The timestamp from `time.localtime()` is a parameter.
- `prepare_sequences` takes the outcome of `compile_loop` at each grid
  point as input. The `linspace`/`meshgrid` grid and
  `format_and_eval_string` are not modelled.
- The ConfigObj file is not read or written, and nothing is archived
  with `shutil.move`.
- The loop over the monitors in `convert_measure` (324-338) is not
  modelled. Only `update_monitor` itself is.
- `literal_eval`/`repr` are not modelled. `access_exs` and `undisplayed`
  are held as the list or dictionary they stand for. A string such as
  `'[]'` is therefore the empty list.
- The `'{' in ...` test on `access_exs` is a test for a dictionary.
- AwgLayout.ExpandedLength: stated only for intervals whose first one
  starts at 1 or after sample 256, whose gaps are at least 256 and whose
  trailing gap is at least 256 or whose last stop is `len + 1`.
  `merge_intervals` can widen an interval anchored at its stop, which can
  leave a first start between 2 and 256 or below 1. For such intervals
  the layout is still modelled (`FillerShortGap` gives the short filler),
  but the total length is not stated.
- AwgIntervals.CoalesceCovers: stated for intervals sorted by start,
  as the sort at awg_context.py:291 leaves them. On unsorted input the
  joining can lose an interval (it keeps the earlier start), and
  `merge_intervals` joins its widened list, which need not be sorted:
  `CoalesceCoversStretched` states what holds there.
- AwgIntervals.MergeIntervalsCovers: stated for the intervals
  `compile_loop` passes: non-empty, sorted by start and ending no later
  than `len + 1`. The samples below 1 of a pulse are not covered, since
  the first fix moves the first start to 1.
- Paths are POSIX paths: `/` is the only separator and a name starting
  with `/` is absolute. The Windows rules of `os.path` (drive letters,
  backslashes) are not modelled.
- AwgLoopCompile.LoopWords and AwgLoopCompile.LoopGapWords: the words
  are stated for `for_file` only. Without it, the blocks are the same
  words as bytes, low byte first (`AwgLoop.Packed`).

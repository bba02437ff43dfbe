# A verified model of the spu-kit sound unit

spu-kit emulates the sound unit of the SNES: an SPC700 processor, its clock divider and
timers, and the S-DSP sample engine that plays BRR-compressed samples through eight voices
and an echo unit. This project models the parts with state that runs for ever, and proves
what they keep, what they refine and what they compute over whole runs.

Every part has two layers. A functional layer says what one step makes of the old state, and
the theorems are lemmas about it and about runs of it. An imperative layer has the source's
own shape (records, register files, arrays and rings updated in place, loops) and is proved
against the functional layer method by method. `dafny verify dfyconfig.toml` checks all of it.

| module | source | what it holds |
|---|---|---|
| Bits, Aram | all | C integer types, casts, bits and division; the 64 KiB memory |
| Counters | src/dsp.c | rate counters: class `RateCounters`, closed forms, exact periods |
| Brr | src/dsp.c | filter arithmetic, the block decoder, the ideal recurrence |
| Envelope | src/dsp.c | ADSR, GAIN and release; bounded liveness |
| Voices, VoiceRuns | src/dsp.c | one voice as a step function; its runs |
| Streaming, Liveness | src/dsp.c | streaming decoder against block decoder; key-on to sustain |
| GaussTable, Overflow | src/dsp.c | the shipped interpolation table, and how a voice comes to overflow on it |
| VoiceUnit | src/dsp.c | class `Voice`, the record updated in place |
| Echo | src/dsp.c | FIR ring and delay line |
| Chip, ChipRuns | src/dsp.c | the whole sample engine and its runs |
| Registers | src/dsp.c | the engine's registers, inputs and outputs in plain numbers |
| DspUnit | src/dsp.c | class `Dsp`, the engine in place |
| Alu, Stack, Overlay | src/spc700.c | carry chains, DIV and MUL, PSW; stack; boot ROM overlay |
| Cpu | src/spc700.c | class `Spc700`, registers and flags in place |
| Clocks, RunLoop | src/apu.c, src/spc700.c | class `Apu`: registers, timers, clock divider; the run loop |
| BufWriter | src/bufwr.c, src/fd.c | buffered writer over the write retry loop |

## The main results

* The streaming BRR decoder refines the block decoder over any number of blocks, and each
  equals one ideal integer recurrence if and only if the ideal samples fit 16 bits
  (`StreamingRefinesBlocks`). What a voice of the running engine decodes from its key-on is
  what they make of the blocks its directory entry names, until it is keyed on again, as long
  as each block is in place when it is decoded, whatever else is stored anywhere
  (`EngineDecodesBlocks`, `LeftAlonePlays`).
* Every rate fires exactly once in every window of its period, for ever, through the 2^32
  wrap of its counter (`ExactlyOncePerPeriod`); each of the 31 as a congruence in numbers
  (`FiresUpTo10`, `FiresUpTo20`, `FiresUpTo31`).
* A voice is released by a polled key-off, soft reset or an end-without-loop block and by
  nothing else, and a key-off silences it within 256 samples (`EngineReleases`,
  `EngineKeyOffSilences`).
* A voice keyed on and left alone reaches decay and then sustain in bounded time, in the
  running engine with everything else arbitrary (`EngineKeyOnLeadsToSustain`).
* The decode ring is a window on the decoded stream, interpolation is one convolution with a
  symmetric kernel over it, and pitch is conserved (`RingIsWindow`,
  `InterpolationIsConvolution`, `PitchIsConserved`).
* Echo memory is a delay line of exactly 512 * EDL samples and the FIR ring a direct
  convolution (`EngineEchoIsDelayLine`, `FirIsConvolution`).
* The functions that the theorems share have second definitions in plain numbers, and each is
  proved equal to its own: samples from header and data bytes (`BlockIsDecoded`,
  `GroupFromBytes`), an envelope step (`EnvStepInNumbers`, `FallsInStraightLines`), the filtered
  echo over the registers (`EngineFir`), what is shown, mixed and put out (`OutputInNumbers`,
  `EngineShows`, `OutputIsMix`), the status byte (`FlagsInNumbers`), the sound registers
  (`PortsInNumbers`) and the paths of a write (`WritePaths`).
* Every run from reset, under arbitrary register and memory stores, stays in bounds
  (`EveryRunStaysInBounds`).
* Folding `adc` or `sbc` over byte strings is addition or subtraction at any width; DIV is
  exact in both its regimes (`AddChainIsAddition`, `SubChainIsSubtraction`, `DivIsExact`).
* The copying ROM overlay refines the checking one, and exactly when; the wrapping stack
  refines an abstract one; nested calls return (`FastRefinesExact`, `StoreKeepsSameExactly`,
  `RunRefines`, `NestedCallsReturn`).
* After n instructions n/4, n/8 and n/32 ticks have been issued, and a timer that the program
  enables and leaves alone has counted exactly those since (`TicksIssued`, `ProgramTimer`).
* The buffered writer sends the concatenation of what was written, whatever the system calls
  below do (`SessionIsConcatenation`, `SessionIgnoresRetries`).

Some expectations turn out false of the code. Each has its failing case and its condition:

* The two BRR decoders need not agree. Both give the ideal stream up to its first sample
  outside 16 bits; at that sample they part if and only if it is neither 98303 nor -98304,
  whose casts happen to be the rails (`Brr.ListsPart`). So they agree on a list of blocks when
  its ideal stream fits, and otherwise only if that sample is one of the two; on filters 0 and
  1 it never is, and they agree exactly when the ideal stream fits (`Brr.ListsAgree`). On
  any list, whether they agree can be checked with the streaming decoder alone, by casting
  each sample where it clamps it (`Brr.ListsAgreeExactly`). A block on which they part is
  `Brr.DecodersCanDisagree`; `Brr.ChanceHidesTheRail` is a group that leaves 16 bits and on
  which they do not.
* A voice keyed on need not be heard. It stays in its attack delay for m rounds of four
  samples if and only if its KON bit is set at the start of every fourth sample after the
  key-on (`ChipRuns.MuteExactlyWhileHeld`), and gets through six samples after the key-on if
  and only if the bit is clear at the fourth (`ChipRuns.KeyOnGetsThrough`). A bit held
  throughout mutes the voice for good (`ChipRuns.HeldKeyNeverSounds`).
* A decay need not reach sustain: it does if and only if its first step does not lie below the
  sustain band (`Envelope.DecayEndsExactly`). Held registers never lead below it, but raising
  the sustain level in time does, from any attack (`Envelope.RaisedSustainStrands`).
* An interpolated sample need not fit 16 bits: at a position it can overflow if and only if the
  four weights there add up to more than 2048 (`VoiceRuns.OverflowsExactly`), which the shipped
  table does at 46 of its 256 positions (`GaussTable.TableOverflows`). A block of the lowest
  inputs on filter 1 fills the ring for it from any history; a voice keyed on on such a block
  stands at one of those positions when it is first heard, and stores 32752 for -32784
  (`Overflow.KeyOnFlips`, `Overflow.FlipIsShown`).
* The two forms of the overlay differ after a store into the shown ROM: at once if and only if
  it is not the ROM's own byte, and after hiding if and only if it changes the covered RAM
  (`Overlay.BrokenGuardShows`).
* Loading a timer's output need not clear it: if and only if the timer is timer 0 or the output
  is 0 already (`Clocks.OutputLoadsHitTimer0`). A polled timer 0 returns the rounds since the
  last poll, a polled timer 1 the rounds since it was enabled (`RunLoop.PolledTwice`).
* A flush tried again after a failure need not send the right stream: it does if and only if
  the first outcome of the failed one, retries aside, was not to take any bytes
  (`BufWriter.RetryIsRightIffNothingSent`).
* A write need not succeed on a descriptor that takes all it is given: it does if and only if
  something is buffered or it is smaller than two buffers (`BufWriter.LargeWriteNeedsPending`).

Where code and comment disagree the code is modelled: the comment at src/dsp.c:364 gives
15/16 as 0.9735, the code multiplies by 15/16. Where C leaves an order of evaluation open, the
low byte is added before the high byte (src/spc700.c:644, src/spc700.c:658) and the four
inputs of a group are read from left to right (src/dsp.c:632-635). Right shifts of negative
values round down.

## Model

| member | source | states |
|---|---|---|
| Counters.RateCounters.constructor | src/dsp.c:113-119 | the three counters start in the state of run 0 of the closed form |
| Counters.RateCounters.Run | src/dsp.c:121-133 | one run takes the closed form for n runs to that for n + 1, wrap included |
| Counters.RateCounters.Read | src/dsp.c:135-152 | the mask test and the reload test together are one congruence on the run number |
| Counters.FiresMeansReload | src/dsp.c:135-152 | a rate fires exactly in the runs congruent to its counter's offset modulo its period |
| Counters.ExactlyOncePerPeriod | src/dsp.c:76-152 | every window of one period, wherever it starts, holds exactly one firing; rate 0 has none |
| Counters.FiringsInPeriods | src/dsp.c:76-152 | m whole periods hold exactly m firings |
| Counters.PeriodsHalve | src/dsp.c:76-152 | the periods in samples: 2048, 1536 and 1280 for rates 1 to 3, half of it three rates on, 2 and 1 for rates 30 and 31 |
| Counters.FiresUpTo10 | src/dsp.c:76-152 | for each of rates 0 to 10, the runs in which it fires, as a congruence written in numbers |
| Counters.FiresUpTo20 | src/dsp.c:76-152 | the same for rates 11 to 20 |
| Counters.FiresUpTo31 | src/dsp.c:76-152 | the same for rates 21 to 31 |
| Brr.CoefficientsAreFractions | src/dsp.c:364-388 | the shift forms are 15/16, 61/32, 115/64 and 13/16 rounded down, for every integer |
| Brr.FiltersAreFractions | src/dsp.c:390-403 | each filter adds its fractions of the right history samples |
| Brr.NibblesRebuildByte | src/dsp.c:289-328 | the two signed fields of a byte, high one first, determine it |
| Brr.ScaledFits | src/dsp.c:336-343 | a scaled field never leaves the 16-bit field that holds it |
| Brr.GroupStaysSmall | src/dsp.c:626-665 | the unclamped chain of four stays below 2^21 for any header, data and history |
| Brr.DecodeBrr | src/dsp.c:406-474 | the decoder's loops compute the truncating recurrence over the block's sixteen inputs; each sample in numbers of header, byte and history; and bits 0 and 1 of the header |
| Brr.InputsOfByte | src/dsp.c:289-343 | the two inputs of a byte in numbers, high field first: a signed field times 2 to the shift (12 at most), halved |
| Brr.SampleOfByte | src/dsp.c:289-403 | a filtered sample as a number of header, byte, field and the two samples before |
| Brr.BlockIsDecoded | src/dsp.c:406-474 | each of the sixteen samples of a decoded block in those numbers: which byte, which field, which history |
| Brr.UnfilteredBlock | src/dsp.c:406-431 | on filter 0 the samples of a byte are its two scaled fields, from any history |
| Brr.GroupFromBytes | src/dsp.c:626-674 | the four samples of a group from its two bytes in numbers, clamped at the end |
| Brr.TruncatedIsIdeal | src/dsp.c:432-466 | casting every sample is invisible if and only if the ideal samples fit 16 bits |
| Brr.GroupedIsIdeal | src/dsp.c:626-674 | clamping after each group of four is invisible if and only if the ideal samples fit 16 bits |
| Brr.ListsAreIdeal | src/dsp.c:484-496 | the same for lists of blocks with history carried from each to the next |
| Brr.DecodersPart | src/dsp.c:406-474 | up to the first ideal sample outside 16 bits both decoders are ideal; there one wraps, the other clamps, and they part if and only if the two values differ |
| Brr.ListsPart | src/dsp.c:484-496 | the same for lists of blocks |
| Brr.ListsAgree | src/dsp.c:484-496 | when whole lists agree: always in range, never on filters 0 and 1 out of range, otherwise only if the first sample out of range looks clamped |
| Brr.AgreeExactly | src/dsp.c:626-674 | how to check with the streaming decoder alone whether both agree on given inputs |
| Brr.ListsAgreeExactly | src/dsp.c:484-496 | the same check for lists of blocks |
| Brr.DecodersCanDisagree | src/dsp.c:406-474 | a block in any memory, from zero history, on which they differ, and how |
| Brr.ChanceHidesTheRail | src/dsp.c:626-674 | a group that leaves 16 bits and on which they agree |
| Streaming.OneGroup | src/dsp.c:615-674 | a group decodes its quarter of the block from the last two samples, and moves on by two bytes or to the next block |
| Streaming.RestOfBlock | src/dsp.c:1056-1068 | the groups left in a block decode the rest of it and lead to the block that follows |
| Streaming.StreamIsGroupList | src/dsp.c:1056-1068 | four groups a block, for any number of blocks |
| Streaming.StreamingRefinesBlocks | src/dsp.c:615-674 | both decoders give the ideal stream if and only if it fits 16 bits, and then agree sample for sample |
| Streaming.StreamingPartsFromBlocks | src/dsp.c:615-674 | where, and if and only if when, the streaming decoder parts from the block decoder |
| Streaming.VoiceStreams | src/dsp.c:946-1103 | a voice that is not restarted decodes exactly that stream, whatever its registers and all memory outside the block being decoded do |
| Streaming.VoiceDecodesBlocks | src/dsp.c:946-1103 | what a voice decodes from the start of a block is what the decoders make of the blocks its directory leads to, each in place when it is decoded |
| Streaming.KeyOnDecodesBlocks | src/dsp.c:992-1008 | the same from a key-on, starting at the directory's start entry |
| Envelope.EnvStepRules | src/dsp.c:803-841 | level in range, modes only from attack to decay to sustain, no fall in attack, no rise in decay or sustain |
| Envelope.AttackClimbs | src/dsp.c:725-754 | in attack the level counts the counter events |
| Envelope.AttackReachesDecay | src/dsp.c:725-754 | attack ends after at most 64 counter events |
| Envelope.DecayStep | src/dsp.c:803-841 | no decay step jumps over the sustain band |
| Envelope.DecayReachesSustain | src/dsp.c:803-841 | a decay that does not start below the sustain band ends within 896 counter events |
| Envelope.DecayEndsExactly | src/dsp.c:803-841 | a decay ever ends if and only if its first step does not lie below the sustain band; below it, it stays in decay for ever |
| Envelope.RaisedSustainStrands | src/dsp.c:803-841 | from any attack, a sustain level raised in the right sample keeps the voice in decay for ever |
| Envelope.AttackReachesSustain | src/dsp.c:803-841 | attack, then decay, then sustain, each within its bound |
| Envelope.SustainIsExponential | src/dsp.c:725-754 | in sustain the level is the exponential decrease iterated once for every counter event |
| Envelope.SustainHoldsOrDies | src/dsp.c:725-754 | at rate 0 it is held for ever, at any other it is 0 after 2047 periods |
| Envelope.DirectGainIsImmediate | src/dsp.c:757-770 | a direct GAIN level holds from the next sample on |
| Envelope.GainIsLinear | src/dsp.c:757-792 | under a linear GAIN mode the level is a clipped straight line in the number of counter events |
| Envelope.GainIsExponential | src/dsp.c:757-792 | under the exponential GAIN mode it is the exponential decrease iterated once for every counter event |
| Envelope.EnvStepInNumbers | src/dsp.c:725-841 | one sample in full, in numbers: the level aimed at, the rate, the clamp, and when each mode is left |
| Envelope.ExponentialStep | src/dsp.c:737-748 | a step of decay, sustain or exponential GAIN from band q of 256 takes q + 1 off the level, down to 0, if the rate fires, and nothing if not |
| Envelope.FallsInStraightLines | src/dsp.c:737-792 | inside band q the level has fallen by m * (q + 1) after m counter events |
| Envelope.ReleaseStep | src/dsp.c:794-801 | release is a line of slope -8 that reaches 0 within 256 samples |
| Voices.Wrap12 | src/dsp.c:711-717 | the one subtraction is the residue modulo 12 for every index that occurs |
| Voices.PitchNeverClamps | src/dsp.c:1070-1073 | the clamp of the pitch accumulator never changes a value |
| Voices.OutputNeverWraps | src/dsp.c:918-944 | the enveloped sample lies in -32752..32750 and no cast after it wraps at any volume |
| VoiceRuns.GroupEntersWindow | src/dsp.c:626-674 | a decoded group enters the ring as its four newest samples |
| VoiceRuns.RingIsWindow | src/dsp.c:667-673 | after any run the ring holds the last twelve decoded samples, oldest first |
| VoiceRuns.InterpolationReadsWindow | src/dsp.c:844-856 | the four taps are consecutive stream samples, interp_pos >> 12 past the oldest |
| VoiceRuns.InterpolationIsConvolution | src/dsp.c:844-865 | the two table pointers make one convolution with a symmetric kernel |
| VoiceRuns.OverflowsExactly | src/dsp.c:844-865 | for any table of weights, a position can overflow 16 bits if and only if its four weights exceed 2048 |
| GaussTable.WeightSumsOfTable | src/dsp.c:676-709 | the shipped weights add up to 2047, 2048 or 2049 at every position, and where to 2049 |
| GaussTable.TableOverflows | src/dsp.c:844-865 | the positions at which the shipped table can overflow, and the bound on the overflow |
| Overflow.FloorBlock | src/dsp.c:626-674 | a block in memory that drives all but its first four samples to the lower rail, from any history |
| Overflow.FloorBlockFillsRing | src/dsp.c:626-674 | a voice that has decoded it holds nothing else in its ring |
| Overflow.FloorRingFlips | src/dsp.c:844-865 | with such a ring the interpolated sample fits 16 bits if and only if the position is not one of the 46; else it is -32784, stored as 32752 |
| Overflow.KeyOnFlips | src/dsp.c:992-1025 | a voice keyed on on such a block stands at such a position when it is first heard |
| Overflow.FlipIsShown | src/dsp.c:1010-1031 | and then shows the upper rail in OUTX |
| VoiceRuns.OutputIsScaled | src/dsp.c:1010-1031 | the output is the enveloped sample times the volume over 128, rounded down |
| VoiceRuns.PitchIsConserved | src/dsp.c:1056-1073 | 0x4000 for every group decoded plus the position grows by exactly the sum of the pitches |
| VoiceRuns.ModeMoves | src/dsp.c:1033-1054 | which event is needed for each change of mode, and key-on exactly |
| VoiceRuns.ReleasedExactly | src/dsp.c:1026-1046 | release if and only if not keyed on, and releasing before, reset, on an end-without-loop block, or keyed off; reset and such a block leave level 0 |
| VoiceRuns.ReleaseFalls | src/dsp.c:1033-1052 | a releasing or just keyed-off voice loses eight levels a sample, its delay counting on |
| VoiceRuns.DelayIsMute | src/dsp.c:992-1008 | the attack delay counts down, is restarted by key-on, and is silent |
| VoiceRuns.EndxEvents | src/dsp.c:1056-1089 | the ENDX bit is asked for exactly at the last group of an end block, which goes on at the directory's address, never in the sample after a key-on, and given back exactly at key-on |
| VoiceRuns.ReleaseReachesSilence | src/dsp.c:794-815 | a releasing voice, or one keyed off in the first sample, is silent after 256 samples, from any level and delay |
| VoiceRuns.SilenceLasts | src/dsp.c:1048-1052 | a silent voice keeps its place, output and ENDX bit until a key-on |
| Liveness.HeldVoiceRunsEnvelope | src/dsp.c:803-841 | an undisturbed voice past its delay runs its envelope, one step a sample |
| Liveness.AttackLeadsToSustain | src/dsp.c:803-841 | the bounds of the envelope hold of the voice |
| Liveness.DelayDecodesOneBlock | src/dsp.c:992-1008 | the attack delay decodes one whole block before the voice is heard |
| Liveness.KeyOnLeadsToSustain | src/dsp.c:1033-1052 | from key-on through decay to sustain in bounded time |
| VoiceUnit.Voice.BrrSample4 | src/dsp.c:626-674 | the in-place group decoder is the function of the theorems, and the four samples it stores are those of its two bytes in numbers |
| VoiceUnit.Voice.RunEnvelope | src/dsp.c:803-841 | the in-place envelope, paced by the real counters, is the function of the theorems |
| VoiceUnit.Voice.Interpolate | src/dsp.c:844-865 | the same for interpolation |
| VoiceUnit.Voice.Run | src/dsp.c:946-1103 | one sample of the record: new state, output, shown registers and ENDX events |
| Echo.FirIsConvolution | src/dsp.c:1133-1162 | both channels are the eight-tap sum over the last eight halved inputs, oldest with coefficient 0 |
| Echo.FirWrittenOut | src/dsp.c:1133-1162 | the filtered echo of a sample written out as eight products of inputs k-7 to k with coefficients 0 to 7, clamped and made even |
| Echo.EchoInNumbers | src/dsp.c:1105-1131 | the two words read, the feedback and the settings latched, as bytes, addresses and sums |
| Echo.HistoryIsInputs | src/dsp.c:1203-1223 | the FIR ring is a window on all inputs so far |
| Echo.PointerGoesRound | src/dsp.c:1278-1286 | the echo pointer visits the slots in turn |
| Echo.SlotWritten | src/dsp.c:1117-1131 | a sample writes its own slot and no other, across $ffff too |
| Echo.EchoIsDelayLine | src/dsp.c:1105-1131 | what is read is what was written 512 * EDL samples before (1 for EDL 0) |
| Echo.DryEchoIsDelayedVoices | src/dsp.c:1248-1251 | without feedback the line returns the voices' echo mix, that many samples late |
| ChipRuns.EveryRunStaysInBounds | src/dsp.c:1165-1302 | the invariant of every run from reset under arbitrary stores |
| ChipRuns.VoicesAreIndependent | src/dsp.c:1194-1201 | each voice steps on the state in which the sample started |
| ChipRuns.MixIsSum | src/dsp.c:906-916 | while no partial sum leaves 16 bits the two buses carry the sums of the voices, the echo bus of those with EON set |
| ChipRuns.VoiceOfRun | src/dsp.c:1165-1201 | a voice of the engine is the voice of the theorems on the inputs it is handed |
| ChipRuns.EngineKeyOnLeadsToSustain | src/dsp.c:1165-1201 | key-on to sustain in the running engine |
| ChipRuns.EngineDecodesBlocks | src/dsp.c:1165-1201 | from its key-on, a voice of the engine decodes the blocks its directory entry names, each in place when it is decoded, whatever else is stored |
| ChipRuns.LeftAlonePlays | src/dsp.c:1116-1131 | stores of the processor and of the echo unit that miss the blocks played leave them in place |
| ChipRuns.EndxOfVoice | src/dsp.c:1056-1089 | each ENDX bit is set by its own end block, cleared by its own key-on and touched by nothing else |
| ChipRuns.SilentVoiceIsStill | src/dsp.c:1048-1052 | silence in the running engine |
| ChipRuns.KeysPolled | src/dsp.c:1173-1183 | KON counts in every other sample, and only if it did not count the time before |
| ChipRuns.KeyOnGetsThrough | src/dsp.c:1173-1183 | after a key-on in any sample, the voice is past its delay six samples on if and only if its KON bit is clear at the fourth |
| ChipRuns.MuteExactlyWhileHeld | src/dsp.c:1173-1183 | it is in its delay for m rounds if and only if its KON bit is set at every fourth sample |
| ChipRuns.DelayedIsMute | src/dsp.c:992-1031 | and as long as it is, it puts out nothing |
| ChipRuns.HeldKeyNeverSounds | src/dsp.c:1173-1183 | a held KON bit restarts its voice every four samples, which therefore stays silent |
| ChipRuns.EngineReleases | src/dsp.c:1026-1046 | what releases a voice in the running engine, as an equivalence over the registers |
| ChipRuns.EngineKeyOffSilences | src/dsp.c:1033-1052 | a KOFF bit set in a polling sample, and no key-on, silences the voice within 256 samples |
| ChipRuns.EchoOfRun | src/dsp.c:1203-1296 | the echo unit of the engine is the one of the theorems |
| ChipRuns.EngineFir | src/dsp.c:1154-1237 | the engine's FIR written out over registers $0f, $1f, ... $7f and the last eight samples read |
| ChipRuns.MomentReads | src/dsp.c:1244-1286 | which registers the echo unit reads: ESA, EDL, echo off, EFB and the coefficients |
| ChipRuns.EngineEchoIsDelayLine | src/dsp.c:1203-1296 | the delay line in the running engine |
| ChipRuns.EngineDryEcho | src/dsp.c:1201-1296 | without feedback the echo read is the sum of the voices with EON set, as many samples ago as the line is long |
| Registers.OutputInNumbers | src/dsp.c:844-1031 | what a sounding voice shows and puts out, as numbers of its ring, position, level, table and volumes |
| Registers.MuteInNumbers | src/dsp.c:1010-1024 | at level 0, or in the attack delay, nothing |
| Registers.EngineShows | src/dsp.c:1016-1024 | OUTX at 16 * i + 9, ENVX at 16 * i + 8, and no other register but ENDX changes in a sample |
| Registers.VoiceReadsRegisters | src/dsp.c:946-1046 | which registers and bits each voice reads |
| Registers.DirectoryInNumbers | src/dsp.c:505-524 | the directory word of a voice, as two bytes of memory |
| Registers.VoiceEntersMix | src/dsp.c:1194-1201 | each voice is added to the main bus, and with EON to the echo bus, both sides clamped |
| Registers.EonLatched | src/dsp.c:1194-1270 | the EON bits that count in a sample are those that stood in the register in the sample before |
| Registers.OutputIsMix | src/dsp.c:1240-1301 | which volumes scale which side of the mix and of the echo, and that the mute flag silences both |
| Registers.StoreReaches | src/dsp.c:1396-1414 | a store reaches its register alone; a store to ENDX clears it |
| DspUnit.Dsp.constructor | src/dsp.c:1382-1394 | start-up state |
| DspUnit.Dsp.RunFir | src/dsp.c:1203-1237 | the FIR ring, its right input stored after three taps, is the convolution |
| DspUnit.Dsp.WriteEcho | src/dsp.c:1268-1296 | the latched settings, the new pointer and the bytes written |
| DspUnit.Dsp.RunAllVoices | src/dsp.c:1194-1201 | the eight voices in turn, and their two mixes |
| DspUnit.Dsp.NextSample | src/dsp.c:1165-1302 | one sample of the whole engine in place is the step function of the runs |
| DspUnit.Dsp.Store | src/dsp.c:1396-1414 | a register store; any store to ENDX clears it |
| Bits.Clamp16 | src/dsp.c:179-183 | the clamp that tests its own cast is the clamp to 16 bits |
| Aram.WordsAreLittleEndian | src/dsp.c:531-548 | which byte is the low one and which the high one, $0000 after $ffff, and that a stored word is read back |
| Alu.AdcMeans | src/spc700.c:588-600 | result, carry, half carry and overflow of one byte addition, as statements about numbers |
| Alu.AddChainIsAddition | src/spc700.c:588-600 | folding `adc` adds n-byte numbers, with carry-out and n-byte signed overflow |
| Alu.SubChainIsSubtraction | src/spc700.c:602-605 | folding `sbc` subtracts them, carry meaning no borrow |
| Alu.AddwAdds | src/spc700.c:639-651 | ADDW is 16-bit addition |
| Alu.SubwSubtracts | src/spc700.c:653-665 | SUBW is 16-bit subtraction |
| Alu.WordHalfCarry | src/spc700.c:639-665 | their half carry is the carry out of bit 11 of the words, or no borrow there |
| Alu.CmpIsSbc | src/spc700.c:667-673 | CMP has the C, Z and N of SBC with carry set |
| Alu.RolDoubles | src/spc700.c:530-539 | rotating a string left through the carry doubles the number |
| Alu.RorUndoesRol | src/spc700.c:530-560 | rotating right undoes it, carry included |
| Alu.DivIsExact | src/spc700.c:2757-2771 | DIV is total and exact: ninth quotient bit in V below 2X, the backward form beyond, X = 0 included |
| Alu.DivUncut | src/spc700.c:2757-2771 | neither result is cut by its byte register but for the ninth bit |
| Alu.MulThenDiv | src/spc700.c:2757-2789 | MUL then DIV by the old Y restores A, remainder 0, V clear |
| Alu.FlagsRoundTrip | src/spc700.c:129-151 | status byte and flags carry the same information |
| Alu.FlagsInNumbers | src/spc700.c:129-151 | which bit of the status byte each flag is |
| Cpu.Spc700.AluAddw | src/spc700.c:639-651 | 16-bit sum, carry, half carry, overflow, Z and N from two byte additions |
| Cpu.Spc700.AluSubw | src/spc700.c:653-665 | 16-bit difference, carry, half carry, overflow, Z and N |
| Cpu.Spc700.AluCmp | src/spc700.c:667-673 | flags of SBC, no operand changed |
| Cpu.Spc700.DivYaX | src/spc700.c:2757-2771 | the exact relation of operands and results, and the flags |
| Cpu.Spc700.MulYa | src/spc700.c:2779-2789 | the product in YA and the flags |
| Cpu.Spc700.MemStore | src/spc700.c:270-277 | one byte of memory, and the register store forwarded |
| Cpu.Spc700.SetShowIplRom | src/spc700.c:254-268 | the two copies are the function of the refinement |
| Cpu.Spc700.PopPsw | src/spc700.c:3180-3184 | whatever flags were composed into the byte come back |
| Overlay.SameIsIndistinguishable | src/spc700.c:243-290 | the refinement relation is exactly what loads can see |
| Overlay.ShowInNumbers | src/spc700.c:254-268 | showing replaces $ffc0 to $ffff by the ROM, hiding puts the saved bytes back, and nothing else changes |
| Overlay.StoreKeepsSameExactly | src/spc700.c:270-290 | a store keeps the two forms the same if and only if it misses the shown ROM (or changes nothing) |
| Overlay.FastRefinesExact | src/spc700.c:243-290 | every load of every guarded sequence returns the same byte in both builds |
| Overlay.HidingRestores | src/spc700.c:254-268 | hiding the ROM restores the RAM it covered |
| Overlay.UnguardedStoreShows | src/spc700.c:254-277 | without the guard a load can differ |
| Overlay.BrokenGuardShows | src/spc700.c:254-290 | after any guarded sequence, exactly which stores into the shown ROM show at once and which after hiding |
| Stack.StepRefines | src/spc700.c:472-499 | each operation refines the abstract stack and writes page 1 only |
| Stack.RunRefines | src/spc700.c:472-499 | so does any interleaving of depth 0 to 256, however often the pointer wraps |
| Stack.CallInNumbers | src/spc700.c:472-499 | where in page 1 a call leaves the two bytes of its return address, and where a return takes them from |
| Stack.NestedCallsReturn | src/spc700.c:735-739 | nested calls up to 128 deep return to their callers with the pointer restored |
| Cpu.Spc700.Call | src/spc700.c:735-739 | the call of the theorem, with no register store forwarded |
| Cpu.Spc700.Ret | src/spc700.c:2209-2215 | the return of the theorem |
| Clocks.TicksClosedForm | src/apu.c:262-274 | k ticks from any state: residue and quotient by the target, output modulo 16 |
| Clocks.FreshTimerTicks | src/apu.c:63-84 | a timer enabled with divider T (0 meaning 256) and left alone |
| Clocks.CtrlStoreMeans | src/apu.c:87-123 | which timers a CTRL store restarts and stops, which ports it clears, whether it asks for the ROM, and that it does nothing else; bit 2 is a second enable of timer 1 |
| Clocks.Timer2StaysOff | src/apu.c:87-123 | no store enables timer 2 |
| Clocks.OutputLoadsHitTimer0 | src/apu.c:237-245 | a load of any of the three outputs clears timer 0's and no other |
| Clocks.PortsInNumbers | src/apu.c:125-260 | an I/O load returns the other side's latch whatever was stored, a DSP data store passes on the address register and the byte, any other register is memory |
| Clocks.Apu.CtrlStore | src/apu.c:87-123 | the in-place store is the function of those lemmas |
| Clocks.Apu.MmioStore | src/apu.c:138-196 | a store into each register: kept, and acted on for CTRL, passed on for the DSP's data port, latched for the I/O ports |
| Clocks.Apu.MmioLoad | src/apu.c:198-260 | a load from each register: its value and its effect |
| Clocks.Apu.DoTimerTick | src/apu.c:262-274 | the in-place tick is the function of the closed form |
| Clocks.Apu.UpdateClocks | src/apu.c:285-302 | what is due on a sixteenth, thirty-second and hundred-and-twenty-eighth clock |
| RunLoop.RunForever | src/spc700.c:3642-3672 | the loop runs the instructions before the first that has no handler, loads, stores and clocks, as the functions of the lemmas do |
| RunLoop.TicksIssued | src/spc700.c:3642-3672 | exactly n/4, n/8 and n/32 ticks after n instructions, alignment and wrap included, whatever they load and store |
| RunLoop.UntouchedTimerTicks | src/apu.c:262-302 | a timer untouched after any instruction j has had exactly the ticks issued since, n/32 - j/32 |
| RunLoop.ProgramTimer | src/apu.c:63-84 | a timer that the program enables in instruction j with divider T: cycles k mod T and output k/T mod 16 after k such ticks |
| RunLoop.PolledTwice | src/apu.c:237-245 | what two polls of a running timer's output return: for timer 0 the rounds between them, for timer 1 the first result and the rounds between them |
| RunLoop.Timer2NeverRuns | src/apu.c:105-110 | no program enables timer 2 |
| BufWriter.FdWrite | src/fd.c:62-105 | for any schedule of outcomes: what is delivered, the report and the calls used up |
| BufWriter.SuccessIsComplete | src/fd.c:62-105 | success is reported exactly when something was to be written and all of it was |
| BufWriter.DeliverInNumbers | src/fd.c:62-105 | which outcomes the loop goes on after, which end it, and what a short write leaves to do |
| BufWriter.RetriesDoNotShow | src/fd.c:78-85 | interruptions and waits change nothing |
| BufWriter.WritePaths | src/bufwr.c:80-126 | the three paths of a write in full: what is sent, what is kept and what is reported |
| BufWriter.FlushPaths | src/bufwr.c:57-72 | a flush in full: nothing on an empty buffer, else everything sent and forgotten, or all of it kept on failure |
| BufWriter.WithoutDescriptor | src/bufwr.c:57-137 | what every flush and write does on a closed descriptor |
| BufWriter.BufWr.Write | src/bufwr.c:94-126 | all three write paths: new stream, new buffer and report |
| BufWriter.BufWr.BufFlush | src/bufwr.c:129-137 | the flush |
| BufWriter.CallKeepsStream | src/bufwr.c:57-137 | one call appends exactly its data on success and sends only a prefix on failure |
| BufWriter.SessionIsConcatenation | src/bufwr.c:57-137 | sent plus buffered is the concatenation of all writes; a prefix at the first failure |
| BufWriter.SessionIgnoresRetries | src/bufwr.c:57-137 | whole sessions cannot tell interruptions and waits |
| BufWriter.RetryIsRightIffNothingSent | src/bufwr.c:57-72 | a flush tried again sends the right stream if and only if the first outcome of the failed one, retries aside, took no bytes |
| BufWriter.RetriedFlushRepeats | src/bufwr.c:57-72 | a schedule on which it does not |
| BufWriter.LargeWriteNeedsPending | src/bufwr.c:80-126 | on a descriptor that takes all it is given a write succeeds if and only if something is buffered or it is smaller than two buffers |

## Left out

- The contents of the boot ROM are a parameter, and so is the interpolation table wherever only
  its size matters; the shipped table is module GaussTable.
- Noise and pitch modulation: not implemented by the source, which outputs 0 for the one and
  ignores the other; so does the model.
- Brr.DecodeBrr: the three loops of filters 1 to 3 differ in the function they call and are
  one loop; the local sample array, filled in order, is a sequence. `scale <= 12` is the
  source's own assertion.
- Streaming.StreamingRefinesBlocks: asks that no block runs past $ffff. There the streaming
  decoder's index is an int and reads behind the array, the block decoder's wraps; the model
  gives the array eight bytes of arbitrary contents behind it.
- The loop and the WAV output of `decode_brr_list` (src/dsp.c:476-500), which need not end; the
  carry of the history from block to block is modelled.
- The engine's sample is one step: stores of the processor fall between samples, as in the
  source. The order of register reads within a sample is the source's.
- Cpu.Spc700.MemLoad: what the sound registers answer is a parameter here; their loads and
  stores are the class Clocks.Apu, in which the other side of the four I/O ports and the sample
  engine's answers are parameters in turn. A store or load with the DSP's address at $80 or
  above ends the emulator (src/dsp.c:1425-1458); the stores are recorded, not judged.
- The dispatch of 256 opcodes, addressing modes, moves, logic, branches and INCW/DECW.
- Clocks.Apu.CtrlStore: what it asks of the boot ROM overlay is kept as a flag; the switch itself
  is Cpu.Spc700.SetShowIplRom.
- RunLoop.RunForever: an instruction is the loads and stores it makes in the sound registers; the
  program runs out or halts, so that the loop ends.
- BufWriter.FdWrite: a schedule is finite, and calls beyond its end fail; an endless row of
  interruptions keeps the source in its loop for ever. `poll` is one outcome of its call.
- `fd_pwrite`, closing, syncing and freeing of the writer, allocation failure.
- A request of 4 GB or more for the buffer is modelled: the size is narrowed to 0 and every
  write goes around the buffer and fails.
- Logging, dumps, traces, SPC file loading and the program's main function.

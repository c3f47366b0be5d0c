# einverb delay line in Dafny

This project models the delay (echo) core of the einverb audio plug-in's
`AudioPluginAudioProcessor`:

- a ring buffer (`mDelayBuffer`) with one channel per output channel;
- one write cursor (`mWritePosition`) that all channels share;
- the sample rate it was prepared for (`mSampleRate`);
- two parameters, delay time and delay gain.

`prepareToPlay` sizes the ring. `processBlock` works on one block of audio in place. First it silences the output channels that have no input. Then, for every input channel, it runs two phases with the same cursor:

- `fillDelayBuffer` copies the dry block into the ring at the cursor, scaled by the delay gain;
- `getFromDelayBuffer` adds the ring span that starts `delayOffset` samples behind the cursor onto the block.

Each phase splits its copy in two where it reaches the end of the ring. The cursor then advances by the block length, modulo the ring length.

Samples are exact `real`s. The point is which ring slot receives which input sample, and with which gain.

The files:

- `cpp_arith.dfy` (module `CppArith`) has the C++ arithmetic the code relies on. `static_cast<int>` truncates toward zero, and `%` keeps the sign of the dividend. It also holds the modular-arithmetic helper lemmas.
- `delay_params.dfy` (module `DelayParams`) has the header's range and default constants, the gain `0.8` hard-coded on the wrapped write segment, and the clamp that keeps a parameter in its range.
- `delay_ring.dfy` (module `DelayRing`) models one channel of the ring as values:
  - the write phase `FillDelay` and the read phase `GetFromDelay`, defined as the code performs them (one copy, or two copies split at the end);
  - the ring length `BufferLength`, the sample offset `DelayOffset` and the read position `ReadPosition`;
  - lemmas that give each phase slot by slot, both as explicit indices and as `% L` indices.
- `delay_echo.dfy` (module `DelayEcho`) puts the two phases together. It gives what a block hears back from itself, and when an input sample comes back in the next block and with which gain.
- `audio_buffer.dfy` (module `AudioBuffer`) models the audio buffers the code works on. A buffer is modelled as one distinct `array<real>` per channel. The framework itself keeps all channels of a buffer in one contiguous block, one channel after the other, and the model does not capture that layout (see Left out). The module holds the three buffer operations the code calls: `copyFromWithRamp` with equal start and end gains, `addFrom` and `clear`. Each acts on one channel, given as the channel's array plus a start sample, as the code passes a pointer plus an offset. Each is proved equal to the matching sequence function of `DelayRing` applied to the channel's samples. Being a `modifies` of that one array, it leaves every other channel alone.
- `plugin_processor.dfy` (module `Processor`) holds the class `PluginProcessor`. Its fields are the processor's fields, with the ring as a sequence of channel arrays. Its methods change the ring, the cursor and the block in place, and are proved against the functions of `DelayRing`. The channel loop of `processBlock` and its body are separate methods, `ProcessChannels` and `ProcessChannel`, and the loop that silences the surplus channels is `AudioBuffer.ClearChannels`. `ProcessBlock` calls them in the code's order.

In three places the code does something a reader might not expect. The model follows the code:

- The delay offset is `static_cast<int>(mSampleRate * time)`, which truncates. It is not rounded, and it is not clamped into the ring. `DelayRing.DelayOffsetFits` shows that no clamp is needed while the delay time stays in its range.
- `prepareToPlay` neither zeroes the ring nor resets the write cursor. After `Prepare` the ring's contents are unspecified, and the cursor keeps its old value (see Findings).
- The wrapped write segment uses the fixed gain `0.8`, not the delay gain. The wrapped read segment has no special gain. `DelayRing.FillDelayAt` states this asymmetry. In particular, with a delay gain of 0 a sample written past the end of the ring is still stored at 0.8 times its value.

## Model

| member | source | states |
|---|---|---|
| CppArith.Trunc | PluginProcessor.cpp:103 | `static_cast<int>` of a real truncates toward zero. For non-negative `x` the result is the largest integer not above `x`. For negative `x` it is the smallest integer not below `x`. |
| CppArith.CRem | PluginProcessor.cpp:234 | The C++ remainder lies strictly between `-b` and `b`. It equals the mathematical `a mod b` for `a >= 0`. For `a < 0` it is non-positive and is the negated remainder of `-a`. |
| CppArith.CRemTruncates | PluginProcessor.cpp:234 | For every dividend and positive divisor, `CRem` is the remainder of division truncated toward zero, `a - Trunc(a / b) * b`, the identity by which C++ defines `%`. |
| DelayParams.Clamp | PluginProcessor.cpp:14-23 | A parameter value is kept inside its declared range. A value already in range is kept unchanged. Values below the range map to its minimum and values above it to its maximum. |
| DelayRing.CopyWithGain | PluginProcessor.cpp:216 | A ramped copy keeps the destination's length. |
| DelayRing.AddInto | PluginProcessor.cpp:240 | An `addFrom` keeps the destination's length. |
| DelayRing.CopyWithGainAt | PluginProcessor.cpp:216 | A ramped copy with equal start and end gain writes `src[srcStart+k]*gain` at `destStart+k` for every `k < count`. Every slot outside `[destStart, destStart+count)` keeps its value. |
| DelayRing.AddIntoAt | PluginProcessor.cpp:240 | An `addFrom` adds `src[srcStart+k]` onto `dest[destStart+k]` for every `k < count`. Every slot outside the span keeps its value. |
| DelayRing.FillDelay | PluginProcessor.cpp:207-227 | The write phase keeps the ring's length. |
| DelayRing.GetFromDelay | PluginProcessor.cpp:229-251 | The read phase keeps the block's length. |
| DelayRing.BufferLength | PluginProcessor.cpp:103 | For a non-negative rate and block size, the ring length is the truncation of `MAX_DELAY_TIME * (sampleRate + samplesPerBlock) + 1`: at least 1, with `L - 1 <= MAX_DELAY_TIME * (sampleRate + samplesPerBlock) < L`. `BufferLengthBounds` and `BufferLengthOfWholeRate` draw the consequences. |
| DelayRing.DelayOffset | PluginProcessor.cpp:233 | For a non-negative product `sampleRate * time`, the offset is its whole part: `0 <= offset <= sampleRate * time < offset + 1`. `DelayOffsetAtMost` and `DelayOffsetFits` bound it against the ring. |
| DelayRing.ReadPosition | PluginProcessor.cpp:234 | If `offset <= L + wp`, the read position lies in `[0, L)` and equals `(wp - offset) mod L`. Otherwise the C++ remainder goes non-positive. |
| DelayRing.BufferLengthBounds | PluginProcessor.cpp:103 | The ring holds more than two blocks, `L >= 2*block + 1`, and more than the longest delay, `L > MAX_DELAY_TIME * sampleRate`. |
| DelayRing.BufferLengthOfWholeRate | PluginProcessor.cpp:103 | For a whole-number sample rate, `L = 2*sampleRate + 2*block + 1`. |
| DelayRing.DelayOffsetFits | PluginProcessor.cpp:233 | A delay time in `[0, 2]` gives an offset with `0 <= offset` and `offset + 2*block < L`. So the read position is always in range without clamping. |
| DelayRing.DelayOffsetAtMost | PluginProcessor.cpp:233 | A delay time in `[0, 2]` gives an offset between 0 and `MAX_DELAY_TIME * sampleRate`. |
| DelayRing.ReadPositionBehind | PluginProcessor.cpp:233-234 | For `0 <= wp < L` and `0 <= offset <= L`, the read position is `wp - offset`, plus `L` when that is negative. |
| DelayRing.FillDelayAt | PluginProcessor.cpp:212-225 | Input sample `i` lands in slot `wp+i` scaled by the delay gain when that slot exists. Otherwise it lands in slot `wp+i-L` scaled by `0.8`. |
| DelayRing.FillDelayElsewhere | PluginProcessor.cpp:212-225 | A slot outside `[wp, wp+n)` and outside the wrapped span `[0, wp+n-L)` keeps its value. |
| DelayRing.GetFromDelayAt | PluginProcessor.cpp:236-250 | Output sample `i` becomes the old sample plus ring slot `rp+i`, or plus slot `rp+i-L` past the end of the ring. |
| DelayRing.FillDelayModular | PluginProcessor.cpp:212-225 | The two-segment write equals modular indexing. Sample `i` lands in slot `(wp+i) % L`, with the delay gain before the wrap and `0.8` after it. |
| DelayRing.FillDelayFrame | PluginProcessor.cpp:212-225 | Every slot `j` with `(j - wp) % L >= n` is left unchanged by the write phase. |
| DelayRing.GetFromDelayModular | PluginProcessor.cpp:236-250 | The two-segment read equals modular indexing: `out[i] = old_out[i] + ring[(rp+i) % L]` for every `i < n`. |
| DelayEcho.BlockOutput | PluginProcessor.cpp:194-201 | The output of one channel for one block (write the dry block, then read it back) has the block's length. |
| DelayEcho.BlockOutputAt | PluginProcessor.cpp:194-201 | When the delay leaves room for the block, output sample `k` is the dry sample plus one other sample. For `k >= offset` that is dry sample `k-offset` of the same block, scaled by the gain its write gave it. Otherwise it is the ring slot `offset` samples behind the cursor, as the block found it. |
| DelayEcho.EchoInNextBlock | PluginProcessor.cpp:194-204 | Sample `i` of one block comes back `offset` samples later as sample `i+offset-n1` of the next block, after the cursor has advanced by `n1` modulo `L`. It is scaled by the delay gain if its write did not wrap, and by `0.8` if it did. |
| AudioBuffer.Allocate | PluginProcessor.cpp:105 | `setSize` without keeping content gives `numChannels` fresh, distinct channel arrays of `numSamples` samples each. |
| AudioBuffer.CopyFromWithRamp | PluginProcessor.cpp:224-225 | The destination channel's samples become `CopyWithGain` of its old samples and the source channel, from the given offsets. |
| AudioBuffer.AddFrom | PluginProcessor.cpp:248-249 | The destination channel's samples become `AddInto` of its old samples and the source channel, from the given offsets. |
| AudioBuffer.Clear | PluginProcessor.cpp:189 | Every sample of the cleared channel is 0. |
| AudioBuffer.ClearChannels | PluginProcessor.cpp:187-189 | Channels `from` up to `to` are silenced. Every other channel keeps its samples. |
| Processor.StaleCursorOutOfRange | PluginProcessor.cpp:96-106 | A cursor of 90000 is reachable at 48 kHz with 512-sample blocks. It lies beyond the end of the ring sized for 22.05 kHz with 512-sample blocks. |
| Processor.PluginProcessor.constructor | PluginProcessor.h:49-62 | A new processor starts with the cursor at 0, a sample rate of 0, an empty ring, and the default delay time 0.15 and gain 0.8. |
| Processor.PluginProcessor.SetDelayTime | PluginProcessor.cpp:14-18 | Setting the delay time stores the value clamped to `[0, 2.0]`. |
| Processor.PluginProcessor.SetDelayGain | PluginProcessor.cpp:19-23 | Setting the delay gain stores the value clamped to `[0, 1.0]`. |
| Processor.PluginProcessor.Prepare | PluginProcessor.cpp:96-106 | Records the sample rate and allocates a fresh ring with `numOutputChannels` channels of `BufferLength` samples. The cursor is kept, so the processor is ready exactly when the old cursor is below the new length. |
| Processor.PluginProcessor.PrepareResettingCursor | PluginProcessor.cpp:96-106 | Like `Prepare`, but the cursor restarts at 0, so the processor is always ready afterwards. |
| Processor.PluginProcessor.ReadPos | PluginProcessor.cpp:231-234 | The read position lies inside the ring. Adding the delay offset to it gives back the cursor, directly or once wrapped around `L`. |
| Processor.PluginProcessor.FillDelayBuffer | PluginProcessor.cpp:207-227 | The channel's ring channel becomes `FillDelay` of its old samples, the channel's dry block, the cursor and the delay gain. Only that ring channel changes. |
| Processor.PluginProcessor.GetFromDelayBuffer | PluginProcessor.cpp:229-251 | The channel's block becomes `GetFromDelay` of its old samples, the channel's ring channel and the read position. Only that block channel changes. |
| Processor.PluginProcessor.ProcessChannel | PluginProcessor.cpp:196-200 | One input channel: its ring channel is written from the dry block at the cursor, then the block gets the ring read back at the read position, which the write does not move. Only these two channels change. |
| Processor.PluginProcessor.ProcessChannels | PluginProcessor.cpp:194-201 | Every input channel gets the write phase and then the read phase at the same cursor and read position. The surplus channels of the block and of the ring keep their samples. |
| Processor.PluginProcessor.ProcessBlock | PluginProcessor.cpp:178-205 | The processor stays ready, and the cursor advances exactly once to `(wp + n) % L`, where `n` is the block's sample count. Every input channel's ring channel is written from its dry input at the old cursor. Every input channel's block gets that ring channel read back at the old read position. Output channels without an input are zeroed, and their ring channels are untouched. |

## Left out

- Framework glue is not modelled: bus construction and parameter registration, name/MIDI/tail queries, program stubs, bus-layout negotiation and editor hooks. They are calls into the plug-in framework, whose code is not part of this model. The bus layout appears only as the two channel counts given to the constructor, with `numInputChannels <= numOutputChannels`.
- `getStateInformation` and `setStateInformation` are not modelled. They go through the framework's XML and binary-blob serialisation. A restored parameter value is modelled by the two setters.
- Floating point is not modelled: float rounding of samples and gain products, `ScopedNoDenormals`, and the float/double conversions of the parameters. Samples and gains are exact reals.
- The 32-bit width of `int` is not modelled. Cursor, lengths and offsets are unbounded integers, which agree with the code while `L + wp` fits in 31 bits.
- The framework stores a buffer's channels in one contiguous block, with channel `c+1` right after channel `c`. The model gives each channel its own array, so it does not capture what an access past the end of one channel does to the next. Every access the model performs is within its channel, which the preconditions guarantee. The one case where the code goes out of range is the stale cursor under Findings, and that case is not Ready here.
- Ring contents after `prepareToPlay` are unspecified. The buffer is resized without clearing, and the model promises nothing about those samples.
- Concurrency is not modelled. The host may change the parameters from another thread. Here they are class fields that a block reads without interference.
- `ProcessBlock` requires the block to be no longer than the block size the ring was prepared for. `FillDelayBuffer`, `GetFromDelayBuffer`, `ProcessChannel` and `ProcessChannels` require the block to fit in the ring, which follows from that. The code assumes this of its host and does not check it.
- The block's sample count, `buffer.getNumSamples()`, is passed to `ProcessBlock` as `numSamples`. Every channel of `buffer` has that many samples.
- The MIDI buffer argument of `processBlock` is ignored by the code and is not modelled.

## Findings

| source | as written | input that shows it | evidently intended | confidence | as-written member | corrected member |
|---|---|---|---|---|---|---|
| PluginProcessor.cpp:96-106 | `prepareToPlay` resizes the ring but keeps `mWritePosition` | Run at 48000 Hz with 512-sample blocks for 175 full blocks and one of 400 samples, which leaves the cursor at 90000 (ring length 97025). Then call `prepareToPlay(22050, 512)`, which gives a ring length of 45125. The next `fillDelayBuffer` takes its split branch with `delayBufferRemaining = -44875`. Its first copy gets the negative count -44875: in a release build it does nothing, and in a debug build it fails the framework's range assertion. Its second copy reads 45387 samples starting 44875 samples before the input block, and writes them from slot 0 of a 45125-sample ring channel. The last 262 of them land past the end of that channel, in the next channel's storage or beyond the ring. | The cursor restarts inside the new ring | not executed; derived from the code's arithmetic | Processor.PluginProcessor.Prepare, Processor.StaleCursorOutOfRange | Processor.PluginProcessor.PrepareResettingCursor |

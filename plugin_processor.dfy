/** The delay processor: a ring buffer with one channel per output channel,
    a single write cursor shared by all channels, and the sample rate it was
    prepared for. A block is processed in place: surplus output channels are
    silenced, then every input channel is written into its ring channel and
    has the delayed ring contents added onto it, and finally the cursor moves
    on by the block length. */
module Processor {
  import opened CppArith
  import opened DelayParams
  import opened DelayRing
  import opened AudioBuffer

  /** Prepare keeps the write cursor. A cursor reached while running at
      48 kHz with 512-sample blocks (175 full blocks and one of 400 samples)
      lies beyond the end of the ring sized for 22.05 kHz with the same block
      size, so a processor re-prepared at the lower rate is not Ready: the
      first segment of the write phase would have negative length. */
  lemma StaleCursorOutOfRange()
    ensures (175 * 512 + 400) % BufferLength(48000.0, 512) == 90000
    ensures BufferLength(22050.0, 512) <= 90000
  {
    BufferLengthOfWholeRate(48000, 512);
    BufferLengthOfWholeRate(22050, 512);
  }

  class PluginProcessor {
    // The bus layout: the processor reads as many channels as it has inputs
    // and owns a ring channel for every output.
    const numInputChannels: nat
    const numOutputChannels: nat

    // The two automatable parameters, each kept inside its range.
    var delayTime: real
    var delayGain: real

    // Internal state: the ring's channels and its length in samples, the
    // write cursor and the sample rate.
    var delayBuffer: seq<array<real>>
    var delayBufferLength: int
    var writePosition: int
    var sampleRate: real

    // The block size the ring was last sized for, and whether it has been.
    ghost var samplesPerBlock: nat
    ghost var prepared: bool

    ghost predicate Valid()
      reads this
    {
      numInputChannels <= numOutputChannels &&
      DelayTimeInRange(delayTime) && DelayGainInRange(delayGain) &&
      0 <= writePosition && 0.0 <= sampleRate &&
      (prepared ==>
         |delayBuffer| == numOutputChannels &&
         delayBufferLength == BufferLength(sampleRate, samplesPerBlock) &&
         Channels(delayBuffer, delayBufferLength)) &&
      (!prepared ==>
         |delayBuffer| == 0 && delayBufferLength == 0 &&
         writePosition == 0 && sampleRate == 0.0)
    }

    /** Prepared, with the write cursor inside the ring: a block can be processed. */
    ghost predicate Ready()
      reads this
    {
      Valid() && prepared && writePosition < delayBufferLength
    }

    constructor (numInputs: nat, numOutputs: nat)
      requires numInputs <= numOutputs
      ensures Valid() && !prepared
      ensures numInputChannels == numInputs && numOutputChannels == numOutputs
      ensures delayTime == DEFAULT_DELAY_TIME && delayGain == DEFAULT_DELAY_GAIN
      ensures writePosition == 0 && sampleRate == 0.0
      ensures delayBuffer == [] && delayBufferLength == 0
    {
      numInputChannels, numOutputChannels := numInputs, numOutputs;
      delayTime, delayGain := DEFAULT_DELAY_TIME, DEFAULT_DELAY_GAIN;
      delayBuffer, delayBufferLength := [], 0;
      writePosition := 0;
      sampleRate := 0.0;
      samplesPerBlock := 0;
      prepared := false;
    }

    /** A host write to the delay time parameter, which keeps it in range. */
    method SetDelayTime(value: real)
      requires Valid()
      modifies this`delayTime
      ensures Valid()
      ensures delayTime == Clamp(value, MIN_DELAY_TIME, MAX_DELAY_TIME)
    {
      delayTime := Clamp(value, MIN_DELAY_TIME, MAX_DELAY_TIME);
    }

    /** A host write to the delay gain parameter, which keeps it in range. */
    method SetDelayGain(value: real)
      requires Valid()
      modifies this`delayGain
      ensures Valid()
      ensures delayGain == Clamp(value, MIN_DELAY_GAIN, MAX_DELAY_GAIN)
    {
      delayGain := Clamp(value, MIN_DELAY_GAIN, MAX_DELAY_GAIN);
    }

    /** prepareToPlay: records the sample rate and sizes a ring channel per
        output to BufferLength samples. The ring's contents are left
        unspecified, and the write cursor is left where it was, so the
        processor is ready exactly when the old cursor falls inside the new
        ring. */
    method Prepare(newSampleRate: real, newSamplesPerBlock: nat)
      requires Valid() && 0.0 <= newSampleRate
      modifies this
      ensures Valid() && prepared
      ensures sampleRate == newSampleRate && samplesPerBlock == newSamplesPerBlock
      ensures |delayBuffer| == numOutputChannels
      ensures forall c :: 0 <= c < |delayBuffer| ==> fresh(delayBuffer[c])
      ensures delayBufferLength == BufferLength(newSampleRate, newSamplesPerBlock)
      ensures writePosition == old(writePosition)
      ensures delayTime == old(delayTime) && delayGain == old(delayGain)
      ensures Ready() <==> old(writePosition) < BufferLength(newSampleRate, newSamplesPerBlock)
    {
      sampleRate := newSampleRate;
      var delayBufferSize := BufferLength(newSampleRate, newSamplesPerBlock);
      BufferLengthBounds(newSampleRate, newSamplesPerBlock);
      delayBuffer := Allocate(numOutputChannels, delayBufferSize);
      delayBufferLength := delayBufferSize;
      samplesPerBlock := newSamplesPerBlock;
      prepared := true;
    }

    /** Prepare with the cursor restarted at slot 0, so that the
        processor is always ready afterwards. */
    method PrepareResettingCursor(newSampleRate: real, newSamplesPerBlock: nat)
      requires Valid() && 0.0 <= newSampleRate
      modifies this
      ensures Ready()
      ensures sampleRate == newSampleRate && samplesPerBlock == newSamplesPerBlock
      ensures |delayBuffer| == numOutputChannels
      ensures forall c :: 0 <= c < |delayBuffer| ==> fresh(delayBuffer[c])
      ensures delayBufferLength == BufferLength(newSampleRate, newSamplesPerBlock)
      ensures writePosition == 0
      ensures delayTime == old(delayTime) && delayGain == old(delayGain)
    {
      Prepare(newSampleRate, newSamplesPerBlock);
      BufferLengthBounds(newSampleRate, newSamplesPerBlock);
      writePosition := 0;
    }

    /** The slot the read phase starts at: the delay time, in whole samples,
        behind the write cursor. */
    function ReadPos(): (rp: nat)
      reads this
      requires Ready()
      ensures rp < delayBufferLength
      ensures rp + DelayOffset(sampleRate, delayTime) == writePosition ||
              rp + DelayOffset(sampleRate, delayTime) == writePosition + delayBufferLength
    {
      DelayOffsetFits(sampleRate, samplesPerBlock, delayTime);
      ReadPositionBehind(delayBufferLength, writePosition, DelayOffset(sampleRate, delayTime));
      ReadPosition(delayBufferLength, writePosition, DelayOffset(sampleRate, delayTime))
    }

    /** fillDelayBuffer: the dry block of one channel goes into that channel
        of the ring at the cursor, split in two where it reaches the end. */
    method FillDelayBuffer(channel: nat, bufferData: array<real>)
      requires Ready() && channel < numInputChannels
      requires bufferData !in delayBuffer && bufferData.Length <= delayBufferLength
      modifies delayBuffer[channel]
      ensures delayBuffer[channel][..] ==
              FillDelay(old(delayBuffer[channel][..]), bufferData[..], writePosition, delayGain)
    {
      var gain := delayGain;
      var bufferLength := bufferData.Length;
      var ring := delayBuffer[channel];
      if delayBufferLength > bufferLength + writePosition {
        CopyFromWithRamp(ring, writePosition, bufferData, 0, bufferLength, gain);
      } else {
        var delayBufferRemaining := delayBufferLength - writePosition;
        CopyFromWithRamp(ring, writePosition, bufferData, 0, delayBufferRemaining, gain);
        CopyFromWithRamp(ring, 0, bufferData, delayBufferRemaining, bufferLength - delayBufferRemaining, WRAP_GAIN);
      }
    }

    /** getFromDelayBuffer: the ring span starting at the read position is
        added onto the block of one channel, split in two where it reaches
        the end of the ring. */
    method GetFromDelayBuffer(buffer: seq<array<real>>, channel: nat, delayBufferData: array<real>)
      requires Ready() && channel < numInputChannels && channel < |buffer|
      requires delayBufferData == delayBuffer[channel] && buffer[channel] != delayBufferData
      requires buffer[channel].Length <= delayBufferLength
      modifies buffer[channel]
      ensures buffer[channel][..] == GetFromDelay(old(buffer[channel][..]), delayBufferData[..], old(ReadPos()))
    {
      var bufferLength := buffer[channel].Length;
      var readPosition := ReadPos();
      if delayBufferLength > bufferLength + readPosition {
        AddFrom(buffer[channel], 0, delayBufferData, readPosition, bufferLength);
      } else {
        var bufferRemaining := delayBufferLength - readPosition;
        AddFrom(buffer[channel], 0, delayBufferData, readPosition, bufferRemaining);
        AddFrom(buffer[channel], bufferRemaining, delayBufferData, 0, bufferLength - bufferRemaining);
      }
    }

    /** The body of processBlock's channel loop: the write phase and then
        the read phase on one input channel, both at the cursor the block
        started with. */
    method ProcessChannel(buffer: seq<array<real>>, channel: nat)
      requires Ready() && channel < numInputChannels
      requires |buffer| == numOutputChannels && Disjoint(buffer, delayBuffer)
      requires buffer[channel].Length <= delayBufferLength
      modifies delayBuffer[channel], buffer[channel]
      ensures delayBuffer[channel][..] ==
              FillDelay(old(delayBuffer[channel][..]), old(buffer[channel][..]), writePosition, delayGain)
      ensures buffer[channel][..] == GetFromDelay(old(buffer[channel][..]), delayBuffer[channel][..], old(ReadPos()))
    {
      ghost var readPos := ReadPos();
      FillDelayBuffer(channel, buffer[channel]);
      assert ReadPos() == readPos;
      GetFromDelayBuffer(buffer, channel, delayBuffer[channel]);
    }

    /** processBlock's channel loop: every input channel gets the write
        phase and then the read phase, all at the cursor the block started
        with. The cursor itself does not move here. */
    method ProcessChannels(buffer: seq<array<real>>, numSamples: nat)
      requires Ready()
      requires |buffer| == numOutputChannels && Channels(buffer, numSamples) && Disjoint(buffer, delayBuffer)
      requires numSamples <= delayBufferLength
      modifies delayBuffer, buffer
      ensures forall c :: 0 <= c < numInputChannels ==>
                delayBuffer[c][..] == FillDelay(old(delayBuffer[c][..]), old(buffer[c][..]), writePosition, delayGain)
      ensures forall c :: 0 <= c < numInputChannels ==>
                buffer[c][..] == GetFromDelay(old(buffer[c][..]), delayBuffer[c][..], old(ReadPos()))
      ensures forall c :: numInputChannels <= c < numOutputChannels ==>
                buffer[c][..] == old(buffer[c][..]) && delayBuffer[c][..] == old(delayBuffer[c][..])
    {
      var totalNumInputChannels := numInputChannels;
      ghost var readPos := ReadPos();
      var channel := 0;
      while channel < totalNumInputChannels
        invariant 0 <= channel <= totalNumInputChannels
        invariant forall c :: 0 <= c < channel ==>
                    delayBuffer[c][..] == FillDelay(old(delayBuffer[c][..]), old(buffer[c][..]), writePosition, delayGain)
        invariant forall c :: 0 <= c < channel ==>
                    buffer[c][..] == GetFromDelay(old(buffer[c][..]), delayBuffer[c][..], readPos)
        invariant forall c :: channel <= c < numOutputChannels ==>
                    buffer[c][..] == old(buffer[c][..]) && delayBuffer[c][..] == old(delayBuffer[c][..])
        modifies delayBuffer, buffer
      {
        label BeforeChannel:
        ProcessChannel(buffer, channel);
        // Only this channel's block and ring channel have changed.
        forall c | 0 <= c < numOutputChannels && c != channel
          ensures delayBuffer[c][..] == old@BeforeChannel(delayBuffer[c][..])
          ensures buffer[c][..] == old@BeforeChannel(buffer[c][..])
        {
          assert delayBuffer[c] != delayBuffer[channel] && delayBuffer[c] != buffer[channel];
          assert buffer[c] != delayBuffer[channel] && buffer[c] != buffer[channel];
        }
        channel := channel + 1;
      }
    }

    /** processBlock: silence the output channels that have no input, run the
        write phase and then the read phase on every input channel with the
        same cursor, then advance the cursor once by the block length. */
    method ProcessBlock(buffer: seq<array<real>>, numSamples: nat)
      requires Ready()
      requires |buffer| == numOutputChannels && Channels(buffer, numSamples) && Disjoint(buffer, delayBuffer)
      requires numSamples <= samplesPerBlock
      modifies this`writePosition, delayBuffer, buffer
      ensures Ready()
      ensures writePosition == (old(writePosition) + numSamples) % delayBufferLength
      ensures forall c :: 0 <= c < numInputChannels ==>
                delayBuffer[c][..] == FillDelay(old(delayBuffer[c][..]), old(buffer[c][..]), old(writePosition), delayGain)
      ensures forall c :: 0 <= c < numInputChannels ==>
                buffer[c][..] == GetFromDelay(old(buffer[c][..]), delayBuffer[c][..], old(ReadPos()))
      ensures forall c :: numInputChannels <= c < numOutputChannels ==> buffer[c][..] == Silence(numSamples)
      ensures forall c :: numInputChannels <= c < numOutputChannels ==> delayBuffer[c][..] == old(delayBuffer[c][..])
    {
      var totalNumInputChannels := numInputChannels;
      var totalNumOutputChannels := numOutputChannels;
      var bufferLength := numSamples;
      BufferLengthBounds(sampleRate, samplesPerBlock);

      ghost var readPos := ReadPos();
      ClearChannels(buffer, totalNumInputChannels, totalNumOutputChannels, bufferLength);
      assert ReadPos() == readPos;
      ProcessChannels(buffer, bufferLength);

      writePosition := (writePosition + bufferLength) % delayBufferLength;
    }
  }
}

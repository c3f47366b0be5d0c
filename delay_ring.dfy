/** One channel of the delay ring, as values: the write phase (fillDelayBuffer),
    the read phase (getFromDelayBuffer), the ring length chosen at preparation
    and the read position. Each phase is defined the way the processor performs
    it, as one copy or two copies split at the end of the ring; the lemmas
    state what that split amounts to in modular terms. */
module DelayRing {
  import opened CppArith
  import opened DelayParams

  /** A sample multiplied by a gain. Keeping the product behind a name lets
      the proofs below treat scaled samples as opaque values. */
  function Amplify(x: real, g: real): real {
    x * g
  }

  /** A ramped copy whose start and end gain are equal: `count` samples of
      `src` from `srcStart` on, scaled by `gain`, replace `dest` from
      `destStart` on. Defined one sample at a time, last sample last. */
  function CopyWithGain(dest: seq<real>, destStart: nat, src: seq<real>, srcStart: nat, count: nat, gain: real): (r: seq<real>)
    requires destStart + count <= |dest| && srcStart + count <= |src|
    ensures |r| == |dest|
    decreases count
  {
    if count == 0 then dest
    else
      var last := count - 1;
      CopyWithGain(dest, destStart, src, srcStart, last, gain)[destStart + last := Amplify(src[srcStart + last], gain)]
  }

  /** An additive copy: `count` samples of `src` from `srcStart` on are added
      onto `dest` from `destStart` on. Defined one sample at a time, last
      sample last. */
  function AddInto(dest: seq<real>, destStart: nat, src: seq<real>, srcStart: nat, count: nat): (r: seq<real>)
    requires destStart + count <= |dest| && srcStart + count <= |src|
    ensures |r| == |dest|
    decreases count
  {
    if count == 0 then dest
    else
      var last := count - 1;
      AddInto(dest, destStart, src, srcStart, last)[destStart + last := dest[destStart + last] + src[srcStart + last]]
  }

  /** Slot `j` of a ramped copy: the scaled source sample inside the span,
      the old sample outside it. */
  lemma {:induction false} CopyWithGainAt(dest: seq<real>, destStart: nat, src: seq<real>, srcStart: nat, count: nat, gain: real, j: int)
    requires destStart + count <= |dest| && srcStart + count <= |src| && 0 <= j < |dest|
    ensures destStart <= j < destStart + count ==>
              CopyWithGain(dest, destStart, src, srcStart, count, gain)[j] == Amplify(src[srcStart + (j - destStart)], gain)
    ensures !(destStart <= j < destStart + count) ==>
              CopyWithGain(dest, destStart, src, srcStart, count, gain)[j] == dest[j]
    decreases count
  {
    if count > 0 && j != destStart + count - 1 {
      CopyWithGainAt(dest, destStart, src, srcStart, count - 1, gain, j);
    }
  }

  /** Slot `j` of an additive copy: the old sample plus the source sample
      inside the span, the old sample outside it. */
  lemma {:induction false} AddIntoAt(dest: seq<real>, destStart: nat, src: seq<real>, srcStart: nat, count: nat, j: int)
    requires destStart + count <= |dest| && srcStart + count <= |src| && 0 <= j < |dest|
    ensures destStart <= j < destStart + count ==>
              AddInto(dest, destStart, src, srcStart, count)[j] == dest[j] + src[srcStart + (j - destStart)]
    ensures !(destStart <= j < destStart + count) ==>
              AddInto(dest, destStart, src, srcStart, count)[j] == dest[j]
    decreases count
  {
    if count > 0 && j != destStart + count - 1 {
      AddIntoAt(dest, destStart, src, srcStart, count - 1, j);
    }
  }

  /** The write phase on one channel's ring: the block goes in at the cursor
      `wp`, scaled by `gain`; a block that reaches the end of the ring is split,
      and its wrapped tail is written from slot 0 scaled by WRAP_GAIN. */
  function FillDelay(ring: seq<real>, input: seq<real>, wp: nat, gain: real): (r: seq<real>)
    requires wp < |ring| && |input| <= |ring|
    ensures |r| == |ring|
  {
    var L, n := |ring|, |input|;
    if L > n + wp then
      CopyWithGain(ring, wp, input, 0, n, gain)
    else
      var remaining := L - wp;
      CopyWithGain(CopyWithGain(ring, wp, input, 0, remaining, gain), 0, input, remaining, n - remaining, WRAP_GAIN)
  }

  /** The read phase on one channel: `|out|` ring samples starting at `rp` are
      added onto the block; a span that reaches the end of the ring is split
      and continues from slot 0. */
  function GetFromDelay(out: seq<real>, ring: seq<real>, rp: nat): (r: seq<real>)
    requires rp < |ring| && |out| <= |ring|
    ensures |r| == |out|
  {
    var L, n := |ring|, |out|;
    if L > n + rp then
      AddInto(out, 0, ring, rp, n)
    else
      var remaining := L - rp;
      AddInto(AddInto(out, 0, ring, rp, remaining), remaining, ring, 0, n - remaining)
  }

  /** Samples per channel of the ring prepared for `sampleRate` and blocks of
      at most `samplesPerBlock`: room for the longest delay plus one block. */
  function BufferLength(sampleRate: real, samplesPerBlock: int): (L: int)
    ensures sampleRate >= 0.0 && samplesPerBlock >= 0 ==>
              1 <= L && (L - 1) as real <= MAX_DELAY_TIME * (sampleRate + samplesPerBlock as real) < L as real
  {
    Trunc(MAX_DELAY_TIME * (sampleRate + samplesPerBlock as real) + 1.0)
  }

  /** The delay in whole samples, truncated toward zero. */
  function DelayOffset(sampleRate: real, time: real): (offset: int)
    ensures sampleRate * time >= 0.0 ==>
              0 <= offset && offset as real <= sampleRate * time < offset as real + 1.0
  {
    Trunc(sampleRate * time)
  }

  /** The slot `offset` samples behind the cursor `wp`, computed with C++'s
      `%`. It is a valid slot whenever the offset is at most `L + wp`; past
      that the remainder is negative or zero. */
  function ReadPosition(L: int, wp: int, offset: int): (r: int)
    requires L > 0
    ensures offset <= L + wp ==> 0 <= r < L && r == (wp - offset) % L
    ensures offset > L + wp ==> -L < r <= 0
  {
    if offset <= L + wp then
      ModShift(wp - offset, L);
      CRem(L + wp - offset, L)
    else
      CRem(L + wp - offset, L)
  }

  // ---------------------------------------------------------------------
  // Sizing

  /** The ring holds more than a block and more than the longest delay. */
  lemma BufferLengthBounds(sampleRate: real, samplesPerBlock: int)
    requires sampleRate >= 0.0 && samplesPerBlock >= 0
    ensures BufferLength(sampleRate, samplesPerBlock) >= 2 * samplesPerBlock + 1
    ensures BufferLength(sampleRate, samplesPerBlock) as real > MAX_DELAY_TIME * sampleRate
    ensures BufferLength(sampleRate, samplesPerBlock) as real > MAX_DELAY_TIME * (sampleRate + samplesPerBlock as real)
  {
  }

  /** For a whole-number sample rate the length is exact: `2*sr + 2*block + 1`. */
  lemma BufferLengthOfWholeRate(sampleRate: nat, samplesPerBlock: nat)
    ensures BufferLength(sampleRate as real, samplesPerBlock) == 2 * sampleRate + 2 * samplesPerBlock + 1
  {
  }

  /** A delay time inside its range gives an offset that leaves room for two
      blocks in the ring: `0 <= offset` and `offset + 2*block < L`. */
  lemma DelayOffsetFits(sampleRate: real, samplesPerBlock: int, time: real)
    requires sampleRate >= 0.0 && samplesPerBlock >= 0 && DelayTimeInRange(time)
    ensures 0 <= DelayOffset(sampleRate, time)
    ensures DelayOffset(sampleRate, time) + 2 * samplesPerBlock < BufferLength(sampleRate, samplesPerBlock)
  {
    DelayOffsetAtMost(sampleRate, time);
    BufferLengthBounds(sampleRate, samplesPerBlock);
  }

  /** The offset is at most the longest delay in samples. */
  lemma DelayOffsetAtMost(sampleRate: real, time: real)
    requires sampleRate >= 0.0 && DelayTimeInRange(time)
    ensures 0 <= DelayOffset(sampleRate, time)
    ensures DelayOffset(sampleRate, time) as real <= MAX_DELAY_TIME * sampleRate
  {
    var delay := sampleRate * time;
    assert 0.0 <= delay <= sampleRate * MAX_DELAY_TIME by {
      ScaleWithin(sampleRate, time, MAX_DELAY_TIME);
    }
  }

  /** Scaling a non-negative value by a factor in `[0, hi]` lands in `[0, x*hi]`. */
  lemma ScaleWithin(x: real, factor: real, hi: real)
    requires 0.0 <= x && 0.0 <= factor <= hi
    ensures 0.0 <= x * factor <= x * hi
  {
  }

  /** Within range, the read position is the cursor moved back by `offset`
      slots, wrapping once past slot 0. */
  lemma ReadPositionBehind(L: int, wp: int, offset: int)
    requires 0 <= wp < L && 0 <= offset <= L
    ensures ReadPosition(L, wp, offset) == if offset <= wp then wp - offset else wp - offset + L
  {
    ModSmall(wp - offset, L);
  }

  // ---------------------------------------------------------------------
  // Each phase slot by slot

  /** The block's sample `i` goes to slot `wp + i` scaled by the delay gain
      while that slot exists; past the end of the ring it goes to slot
      `wp + i - L`, scaled by WRAP_GAIN. */
  lemma {:induction false} FillDelayAt(ring: seq<real>, input: seq<real>, wp: nat, gain: real, i: nat)
    requires wp < |ring| && |input| <= |ring| && i < |input|
    ensures wp + i < |ring| ==> FillDelay(ring, input, wp, gain)[wp + i] == Amplify(input[i], gain)
    ensures wp + i >= |ring| ==> FillDelay(ring, input, wp, gain)[wp + i - |ring|] == Amplify(input[i], WRAP_GAIN)
  {
    var L, n := |ring|, |input|;
    if L > n + wp {
      CopyWithGainAt(ring, wp, input, 0, n, gain, wp + i);
    } else {
      var remaining := L - wp;
      var head := CopyWithGain(ring, wp, input, 0, remaining, gain);
      if i < remaining {
        CopyWithGainAt(head, 0, input, remaining, n - remaining, WRAP_GAIN, wp + i);
        CopyWithGainAt(ring, wp, input, 0, remaining, gain, wp + i);
      } else {
        CopyWithGainAt(head, 0, input, remaining, n - remaining, WRAP_GAIN, i - remaining);
      }
    }
  }

  /** A slot outside both written spans, `[wp, wp + n)` and the wrapped
      `[0, wp + n - L)`, keeps its value. */
  lemma {:induction false} FillDelayElsewhere(ring: seq<real>, input: seq<real>, wp: nat, gain: real, j: nat)
    requires wp < |ring| && |input| <= |ring| && j < |ring|
    requires !(wp <= j < wp + |input|) && !(j < wp + |input| - |ring|)
    ensures FillDelay(ring, input, wp, gain)[j] == ring[j]
  {
    var L, n := |ring|, |input|;
    if L > n + wp {
      CopyWithGainAt(ring, wp, input, 0, n, gain, j);
    } else {
      var remaining := L - wp;
      var head := CopyWithGain(ring, wp, input, 0, remaining, gain);
      CopyWithGainAt(head, 0, input, remaining, n - remaining, WRAP_GAIN, j);
      CopyWithGainAt(ring, wp, input, 0, remaining, gain, j);
    }
  }

  /** Output sample `i` receives ring slot `rp + i`, or `rp + i - L` once the
      span has passed the end of the ring. */
  lemma {:induction false} GetFromDelayAt(out: seq<real>, ring: seq<real>, rp: nat, i: nat)
    requires rp < |ring| && |out| <= |ring| && i < |out|
    ensures rp + i < |ring| ==> GetFromDelay(out, ring, rp)[i] == out[i] + ring[rp + i]
    ensures rp + i >= |ring| ==> GetFromDelay(out, ring, rp)[i] == out[i] + ring[rp + i - |ring|]
  {
    var L, n := |ring|, |out|;
    if L > n + rp {
      AddIntoAt(out, 0, ring, rp, n, i);
    } else {
      var remaining := L - rp;
      var head := AddInto(out, 0, ring, rp, remaining);
      AddIntoAt(head, remaining, ring, 0, n - remaining, i);
      AddIntoAt(out, 0, ring, rp, remaining, i);
    }
  }

  // ---------------------------------------------------------------------
  // The two-segment split equals modular indexing

  /** The block's sample `i` lands in slot `(wp + i) % L`. */
  lemma FillDelayModular(ring: seq<real>, input: seq<real>, wp: nat, gain: real, i: nat)
    requires wp < |ring| && |input| <= |ring| && i < |input|
    ensures wp + i < |ring| ==> FillDelay(ring, input, wp, gain)[(wp + i) % |ring|] == Amplify(input[i], gain)
    ensures wp + i >= |ring| ==> FillDelay(ring, input, wp, gain)[(wp + i) % |ring|] == Amplify(input[i], WRAP_GAIN)
  {
    FillDelayAt(ring, input, wp, gain, i);
    ModSmall(wp + i, |ring|);
  }

  /** A slot outside the span the block covers, `(j - wp) % L >= n`, keeps
      its value. */
  lemma FillDelayFrame(ring: seq<real>, input: seq<real>, wp: nat, gain: real, j: nat)
    requires wp < |ring| && |input| <= |ring| && j < |ring|
    requires (j - wp) % |ring| >= |input|
    ensures FillDelay(ring, input, wp, gain)[j] == ring[j]
  {
    ModSmall(j - wp, |ring|);
    FillDelayElsewhere(ring, input, wp, gain, j);
  }

  /** Ring slot `(rp + i) % L` is added onto the block's sample `i`, for every
      sample of the block, whether or not the span wraps. */
  lemma GetFromDelayModular(out: seq<real>, ring: seq<real>, rp: nat, i: nat)
    requires rp < |ring| && |out| <= |ring| && i < |out|
    ensures GetFromDelay(out, ring, rp)[i] == out[i] + ring[(rp + i) % |ring|]
  {
    GetFromDelayAt(out, ring, rp, i);
    ModSmall(rp + i, |ring|);
  }
}

/** What one block hears back, and what the next block hears back: the write
    phase followed by the read phase on one channel, as the processor runs
    them, put together. */
module DelayEcho {
  import opened CppArith
  import opened DelayParams
  import opened DelayRing

  /** The output of one block on one channel: the write phase of the dry
      block `input` at cursor `wp`, then the read phase `offset` samples behind
      the cursor, added onto the dry block. */
  function BlockOutput(ring: seq<real>, input: seq<real>, wp: nat, gain: real, offset: nat): (out: seq<real>)
    requires wp < |ring| && |input| <= |ring| && offset <= |ring|
    ensures |out| == |input|
  {
    GetFromDelay(input, FillDelay(ring, input, wp, gain), ReadPosition(|ring|, wp, offset))
  }

  /** When the delay leaves room for the block (`offset <= L - n`), output
      sample `k` is the dry sample plus the sample written `offset` samples
      earlier: from this very block when `k >= offset` (scaled by the gain the
      write phase gave it), otherwise from the ring as the block found it. */
  lemma {:induction false} BlockOutputAt(ring: seq<real>, input: seq<real>, wp: nat, gain: real, offset: nat, k: nat)
    requires wp < |ring| && |input| <= |ring| && offset <= |ring| - |input| && k < |input|
    ensures k >= offset && wp + (k - offset) < |ring| ==>
              BlockOutput(ring, input, wp, gain, offset)[k] == input[k] + Amplify(input[k - offset], gain)
    ensures k >= offset && wp + (k - offset) >= |ring| ==>
              BlockOutput(ring, input, wp, gain, offset)[k] == input[k] + Amplify(input[k - offset], WRAP_GAIN)
    ensures k < offset && offset <= wp + k ==>
              BlockOutput(ring, input, wp, gain, offset)[k] == input[k] + ring[wp + k - offset]
    ensures k < offset && wp + k < offset ==>
              BlockOutput(ring, input, wp, gain, offset)[k] == input[k] + ring[wp + k - offset + |ring|]
  {
    var L, n := |ring|, |input|;
    var written := FillDelay(ring, input, wp, gain);
    var rp := ReadPosition(L, wp, offset);
    ReadPositionBehind(L, wp, offset);
    GetFromDelayAt(input, written, rp, k);
    if k >= offset {
      FillDelayAt(ring, input, wp, gain, k - offset);
    } else if offset <= wp + k {
      FillDelayElsewhere(ring, input, wp, gain, wp + k - offset);
    } else {
      FillDelayElsewhere(ring, input, wp, gain, wp + k - offset + L);
    }
  }

  /** Impulse response across a block boundary: sample `i` of one block
      comes back `offset` samples later, as sample `k = i + offset - n1` of
      the next block, scaled by the gain its own write gave it. The next
      block's write does not cover it, since the delay leaves room for that
      block (`offset <= L - n2`). */
  lemma {:induction false} EchoInNextBlock(ring: seq<real>, first: seq<real>, second: seq<real>,
                                           wp: nat, gain1: real, gain2: real, offset: nat, k: nat)
    requires wp < |ring| && |first| <= |ring| && |second| <= |ring|
    requires offset <= |ring| - |second| && k < |second| && k < offset <= k + |first|
    ensures var i := |first| + k - offset;
            wp + i < |ring| ==>
              BlockOutput(FillDelay(ring, first, wp, gain1), second, (wp + |first|) % |ring|, gain2, offset)[k]
              == second[k] + Amplify(first[i], gain1)
    ensures var i := |first| + k - offset;
            wp + i >= |ring| ==>
              BlockOutput(FillDelay(ring, first, wp, gain1), second, (wp + |first|) % |ring|, gain2, offset)[k]
              == second[k] + Amplify(first[i], WRAP_GAIN)
  {
    var L, n1 := |ring|, |first|;
    var i := n1 + k - offset;
    var ring1 := FillDelay(ring, first, wp, gain1);
    var wp2 := (wp + n1) % L;
    ModSmall(wp + n1, L);
    BlockOutputAt(ring1, second, wp2, gain2, offset, k);
    FillDelayAt(ring, first, wp, gain1, i);
    // The slot the second block reads for sample k is the slot the first
    // block wrote for sample i.
    var readSlot := if offset <= wp2 + k then wp2 + k - offset else wp2 + k - offset + L;
    var writeSlot := if wp + i < L then wp + i else wp + i - L;
    assert readSlot == writeSlot;
  }
}

/** The multichannel sample buffers the processor works on in place. A
    buffer is a number of samples per channel and one distinct array per
    channel (the framework lays the channels out one after the other in a
    single block; this model keeps them apart). The three range operations
    the delay uses act on a single channel and are specified by what they do
    to that channel's samples, as a sequence. */
module AudioBuffer {
  import opened DelayRing

  /** `chans` are distinct arrays holding `numSamples` samples each. */
  ghost predicate Channels(chans: seq<array<real>>, numSamples: nat) {
    (forall c :: 0 <= c < |chans| ==> chans[c].Length == numSamples) &&
    (forall c, d :: 0 <= c < d < |chans| ==> chans[c] != chans[d])
  }

  /** No channel of `xs` is a channel of `ys`. */
  ghost predicate Disjoint(xs: seq<array<real>>, ys: seq<array<real>>) {
    forall c, d :: 0 <= c < |xs| && 0 <= d < |ys| ==> xs[c] != ys[d]
  }

  /** setSize without keeping the old content: `numChannels` fresh channels
      of `numSamples` samples each, whose contents are unspecified. */
  method Allocate(numChannels: nat, numSamples: nat) returns (chans: seq<array<real>>)
    ensures |chans| == numChannels && Channels(chans, numSamples)
    ensures forall c :: 0 <= c < |chans| ==> fresh(chans[c])
  {
    chans := [];
    while |chans| < numChannels
      invariant |chans| <= numChannels && Channels(chans, numSamples)
      invariant forall c :: 0 <= c < |chans| ==> fresh(chans[c])
    {
      var channel := new real[numSamples];
      chans := chans + [channel];
    }
  }

  /** copyFromWithRamp with equal start and end gain: `count` samples of
      `src` from `srcStart` on, scaled by `gain`, overwrite `dest` from
      `destStart` on. */
  method CopyFromWithRamp(dest: array<real>, destStart: nat, src: array<real>, srcStart: nat, count: nat, gain: real)
    requires dest != src
    requires destStart + count <= dest.Length && srcStart + count <= src.Length
    modifies dest
    ensures dest[..] == CopyWithGain(old(dest[..]), destStart, src[..], srcStart, count, gain)
  {
    forall j | destStart <= j < destStart + count {
      dest[j] := Amplify(src[srcStart + (j - destStart)], gain);
    }
    forall j | 0 <= j < dest.Length
      ensures dest[j] == CopyWithGain(old(dest[..]), destStart, src[..], srcStart, count, gain)[j]
    {
      CopyWithGainAt(old(dest[..]), destStart, src[..], srcStart, count, gain, j);
    }
  }

  /** addFrom: `count` samples of `src` from `srcStart` on are added onto
      `dest` from `destStart` on. */
  method AddFrom(dest: array<real>, destStart: nat, src: array<real>, srcStart: nat, count: nat)
    requires dest != src
    requires destStart + count <= dest.Length && srcStart + count <= src.Length
    modifies dest
    ensures dest[..] == AddInto(old(dest[..]), destStart, src[..], srcStart, count)
  {
    forall j | destStart <= j < destStart + count {
      dest[j] := dest[j] + src[srcStart + (j - destStart)];
    }
    forall j | 0 <= j < dest.Length
      ensures dest[j] == AddInto(old(dest[..]), destStart, src[..], srcStart, count)[j]
    {
      AddIntoAt(old(dest[..]), destStart, src[..], srcStart, count, j);
    }
  }

  /** A channel's worth of silence. */
  function Silence(numSamples: nat): seq<real> {
    seq(numSamples, _ => 0.0)
  }

  /** clear over a whole channel: every sample of it becomes silence. */
  method Clear(a: array<real>)
    modifies a
    ensures a[..] == Silence(a.Length)
  {
    forall j | 0 <= j < a.Length {
      a[j] := 0.0;
    }
  }

  /** clear over whole channels: channels `from` up to `to` of `chans`
      become silence, the others keep their samples. */
  method ClearChannels(chans: seq<array<real>>, from: nat, to: nat, numSamples: nat)
    requires from <= to <= |chans| && Channels(chans, numSamples)
    modifies chans
    ensures forall c :: from <= c < to ==> chans[c][..] == Silence(numSamples)
    ensures forall c :: 0 <= c < |chans| && !(from <= c < to) ==> chans[c][..] == old(chans[c][..])
  {
    var i := from;
    while i < to
      invariant from <= i <= to
      invariant forall c :: from <= c < i ==> chans[c][..] == Silence(numSamples)
      invariant forall c :: 0 <= c < |chans| && !(from <= c < i) ==> chans[c][..] == old(chans[c][..])
    {
      Clear(chans[i]);
      i := i + 1;
    }
  }
}

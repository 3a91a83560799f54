/**
 * The capture worklet: fractional decimation of a sample stream that arrives in blocks, conversion to
 * Int16, and posting in frames of 640. Arithmetic is exact: samples and the read position are `real`.
 */
module VoiceCapture {
  import opened Options

  const FRAME_LENGTH: nat := 640

  // ------------------------------------------------------------------- one sample

  function Clamp(sample: real): real {
    if sample < -1.0 then -1.0 else if sample > 1.0 then 1.0 else sample
  }

  /** What storing a number in an `Int16Array` does within its range: it truncates toward zero. */
  function Truncate(x: real): int {
    if x < 0.0 then -(-x).Floor else x.Floor
  }

  function Convert(sample: real): int {
    var clamped := Clamp(sample);
    Truncate(if clamped < 0.0 then clamped * 32768.0 else clamped * 32767.0)
  }

  /** No sample leaves the Int16 range, so none wraps to the opposite sign. */
  lemma ConvertStaysInRange(sample: real)
    ensures -32768 <= Convert(sample) <= 32767
    ensures sample >= 0.0 ==> Convert(sample) >= 0
    ensures sample <= 0.0 ==> Convert(sample) <= 0
  {
    var clamped := Clamp(sample);
    assert -1.0 <= clamped <= 1.0;
  }

  /** The scale: full deflection is the end of the range, and what is cut off is less than one step toward zero. */
  lemma ConvertScales(sample: real)
    ensures sample >= 1.0 ==> Convert(sample) == 32767
    ensures sample <= -1.0 ==> Convert(sample) == -32768
    ensures 0.0 <= sample <= 1.0 ==> 32767.0 * sample - 1.0 < Convert(sample) as real <= 32767.0 * sample
    ensures -1.0 <= sample <= 0.0 ==> 32768.0 * sample <= Convert(sample) as real < 32768.0 * sample + 1.0
  {
  }

  // ------------------------------------------------------------------- the whole stream

  /** The least integer that is at least `x`. */
  function Ceiling(x: real): int {
    -(-x).Floor
  }

  /** How many outputs `inputs` samples make. */
  function Count(inputs: nat, ratio: real): nat
    requires ratio > 0.0
  {
    CountIsNatural(inputs, ratio);
    Ceiling(inputs as real / ratio)
  }

  lemma CountIsNatural(inputs: nat, ratio: real)
    requires ratio > 0.0
    ensures Ceiling(inputs as real / ratio) >= 0
  {
    assert inputs as real / ratio >= 0.0;
  }

  /** Output `k` is due exactly when its read position `k * ratio` lies within the inputs. */
  lemma CountIsExact(inputs: nat, ratio: real, k: nat)
    requires ratio > 0.0
    ensures k < Count(inputs, ratio) <==> k as real * ratio < inputs as real
  {
    var x := inputs as real / ratio;
    assert x * ratio == inputs as real;
    if k as real < x {
      assert k as real * ratio < x * ratio;
    } else {
      assert k as real * ratio >= x * ratio;
    }
  }

  /** Where `k` additions of the ratio lead. */
  function Advanced(k: nat, ratio: real): real {
    if k == 0 then 0.0 else Advanced(k - 1, ratio) + ratio
  }

  lemma {:induction false} AdvancedIsProduct(k: nat, ratio: real)
    ensures Advanced(k, ratio) == k as real * ratio
  {
    if k > 0 {
      AdvancedIsProduct(k - 1, ratio);
      var fewer := (k - 1) as real;
      assert k as real == fewer + 1.0;
      assert (fewer + 1.0) * ratio == fewer * ratio + ratio;
    }
  }

  function ReadIndex(k: nat, ratio: real): int {
    (k as real * ratio).Floor
  }

  /** What a stream decimates to, whatever blocks it came in. */
  function Output(stream: seq<real>, ratio: real): seq<int>
    requires ratio > 0.0
  {
    seq(Count(|stream|, ratio), k requires 0 <= k < Count(|stream|, ratio) =>
      (IndexInside(|stream|, ratio, k); Convert(stream[ReadIndex(k, ratio)])))
  }

  lemma IndexInside(inputs: nat, ratio: real, k: nat)
    requires ratio > 0.0 && k < Count(inputs, ratio)
    ensures 0 <= ReadIndex(k, ratio) < inputs
  {
    AdvancedIsProduct(k, ratio);
    CountIsExact(inputs, ratio, k);
    assert k as real * ratio >= 0.0;
  }

  function Concat(frames: seq<seq<int>>): seq<int> {
    if frames == [] then [] else Concat(frames[..|frames| - 1]) + frames[|frames| - 1]
  }

  lemma {:induction false} ConcatOfFrames(frames: seq<seq<int>>, i: nat)
    requires i < |frames| && forall k :: 0 <= k < |frames| ==> |frames[k]| == FRAME_LENGTH
    ensures |Concat(frames)| == |frames| * FRAME_LENGTH
    ensures Concat(frames)[i * FRAME_LENGTH..(i + 1) * FRAME_LENGTH] == frames[i]
  {
    var front := frames[..|frames| - 1];
    if front == [] {
    } else if i < |front| {
      ConcatOfFrames(front, i);
      var all, cut := Concat(frames), Concat(front);
      assert all[i * FRAME_LENGTH..(i + 1) * FRAME_LENGTH] == cut[i * FRAME_LENGTH..(i + 1) * FRAME_LENGTH];
    } else {
      ConcatOfFrames(front, 0);
    }
  }

  // ------------------------------------------------------------------- the processor

  class VoiceCaptureProcessor {
    const ratio: real
    var position: real
    var muted: bool
    const frame: array<int>
    var frameOffset: nat
    var posted: seq<seq<int>>
    /** Everything heard so far, with silence for what arrived while muted. */
    ghost var heard: seq<real>

    ghost function Emitted(): seq<int>
      reads this, frame
      requires frameOffset <= frame.Length
    {
      Concat(posted) + frame[..frameOffset]
    }

    /** Holds inside the loop too: every output so far is right, and the next read position is `position`. */
    ghost predicate Tracks(stream: seq<real>, before: nat)
      reads this, frame
    {
      && ratio > 0.0 && frame.Length == FRAME_LENGTH && frameOffset < FRAME_LENGTH
      && (forall i :: 0 <= i < |posted| ==> |posted[i]| == FRAME_LENGTH)
      && position == Advanced(|Emitted()|, ratio) - before as real
      && |Emitted()| <= Count(|stream|, ratio)
      && Emitted() == Output(stream, ratio)[..|Emitted()|]
    }

    ghost predicate Valid()
      reads this, frame
    {
      Tracks(heard, |heard|) && Emitted() == Output(heard, ratio)
    }

    constructor (sampleRate: real, targetRate: real)
      requires sampleRate > 0.0 && targetRate > 0.0
      ensures Valid() && fresh(frame) && heard == [] && posted == [] && !muted
      ensures ratio == sampleRate / targetRate
    {
      ratio := sampleRate / targetRate;
      position, muted, frameOffset, posted, heard := 0.0, false, 0, [], [];
      frame := new int[FRAME_LENGTH];
      new;
      assert Count(0, ratio) == 0;
    }

    method Mute(muted: bool)
      requires Valid()
      modifies this`muted
      ensures Valid() && this.muted == muted
    {
      this.muted := muted;
    }

    /** The loop body of `process`: convert one sample, advance, and post a full frame. */
    method Emit(sample: real)
      requires frame.Length == FRAME_LENGTH && frameOffset < FRAME_LENGTH
      requires forall i :: 0 <= i < |posted| ==> |posted[i]| == FRAME_LENGTH
      modifies this`position, this`frameOffset, this`posted, frame
      ensures frameOffset < FRAME_LENGTH && old(posted) <= posted
      ensures forall i :: 0 <= i < |posted| ==> |posted[i]| == FRAME_LENGTH
      ensures position == old(position) + ratio
      ensures Emitted() == old(Emitted()) + [Convert(sample)]
    {
      ghost var rest := frame[..frameOffset];
      frame[frameOffset] := Convert(sample);
      frameOffset := frameOffset + 1;
      position := position + ratio;
      assert frame[..frameOffset] == rest + [Convert(sample)];
      if frameOffset == FRAME_LENGTH {
        posted := posted + [frame[..]];
        assert posted[..|posted| - 1] == old(posted);
        frameOffset := 0;
      }
    }

    /** One turn of the loop of `process`. */
    method Turn(block: seq<real>, ghost before: nat, ghost input: seq<real>)
      requires Tracks(heard, before) && 0.0 <= position < |block| as real
      requires before + |block| == |heard| && heard[before..] == input
      requires input == if muted then Silence(|block|) else block
      modifies this`position, this`frameOffset, this`posted, frame
      ensures Tracks(heard, before) && position >= 0.0 && old(posted) <= posted
      ensures |Emitted()| == |old(Emitted())| + 1
    {
      ghost var k := |Emitted()|;
      NextRead(|heard|, ratio, k, before, position);
      var sample := if muted then 0.0 else block[position.Floor];
      assert sample == input[position.Floor] == heard[ReadIndex(k, ratio)];
      Emit(sample);
      OneMoreOutput(heard, ratio, k);
    }

    /** `process`: one block of the input channel, or none. */
    method Process(channel: Option<seq<real>>)
      requires Valid()
      modifies this, frame
      ensures Valid() && muted == old(muted) && old(posted) <= posted
      ensures heard == old(heard) + if channel.None? then []
                                    else if muted then Silence(|channel.value|) else channel.value
    {
      if channel.None? {
        return;
      }
      var block := channel.value;
      ghost var before := |heard|;
      ghost var input := if muted then Silence(|block|) else block;
      heard := heard + input;
      assert heard[before..] == input;
      MoreInputs(old(heard), heard, ratio);
      NothingOverdue(before, ratio, |Emitted()|);
      while position < |block| as real
        invariant Tracks(heard, before) && position >= 0.0
        invariant muted == old(muted) && old(posted) <= posted && heard == old(heard) + input
        decreases Count(|heard|, ratio) - |Emitted()|
      {
        Turn(block, before, input);
      }
      AllRead(|heard|, ratio, |Emitted()|, before, position);
      position := position - |block| as real;
    }
  }

  /** The read position, relative to a block that starts after `before` samples, names the right sample. */
  lemma NextRead(inputs: nat, ratio: real, k: nat, before: nat, position: real)
    requires ratio > 0.0 && position == Advanced(k, ratio) - before as real
    requires 0.0 <= position < inputs as real - before as real
    ensures k < Count(inputs, ratio) && ReadIndex(k, ratio) == before + position.Floor
    ensures 0 <= position.Floor < inputs - before
    ensures position + ratio == Advanced(k + 1, ratio) - before as real
  {
    AdvancedIsProduct(k, ratio);
    CountIsExact(inputs, ratio, k);
    assert (position + before as real).Floor == position.Floor + before;
  }

  lemma NothingOverdue(inputs: nat, ratio: real, k: nat)
    requires ratio > 0.0 && k == Count(inputs, ratio)
    ensures Advanced(k, ratio) - inputs as real >= 0.0
  {
    AdvancedIsProduct(k, ratio);
    CountIsExact(inputs, ratio, k);
  }

  lemma AllRead(inputs: nat, ratio: real, k: nat, before: nat, position: real)
    requires ratio > 0.0 && position == Advanced(k, ratio) - before as real
    requires position >= inputs as real - before as real && k <= Count(inputs, ratio)
    ensures k == Count(inputs, ratio)
  {
    AdvancedIsProduct(k, ratio);
    CountIsExact(inputs, ratio, k);
  }

  lemma OneMoreOutput(stream: seq<real>, ratio: real, k: nat)
    requires ratio > 0.0 && k < Count(|stream|, ratio) && 0 <= ReadIndex(k, ratio) < |stream|
    ensures Output(stream, ratio)[..k + 1] == Output(stream, ratio)[..k] + [Convert(stream[ReadIndex(k, ratio)])]
  {
  }

  function Silence(length: nat): seq<real> {
    seq(length, i => 0.0)
  }

  /** More input only adds outputs. */
  lemma MoreInputs(stream: seq<real>, longer: seq<real>, ratio: real)
    requires ratio > 0.0 && stream <= longer
    ensures Count(|stream|, ratio) <= Count(|longer|, ratio)
    ensures Output(stream, ratio) == Output(longer, ratio)[..Count(|stream|, ratio)]
  {
    var count := Count(|stream|, ratio);
    if count > 0 {
      CountIsExact(|stream|, ratio, count - 1);
      CountIsExact(|longer|, ratio, count - 1);
    }
    forall k | 0 <= k < count ensures Output(stream, ratio)[k] == Output(longer, ratio)[k] {
      SameOutput(stream, longer, ratio, k);
    }
  }

  lemma SameOutput(stream: seq<real>, longer: seq<real>, ratio: real, k: nat)
    requires ratio > 0.0 && stream <= longer && k < Count(|stream|, ratio) <= Count(|longer|, ratio)
    ensures Output(stream, ratio)[k] == Output(longer, ratio)[k]
  {
    IndexInside(|stream|, ratio, k);
  }

  /**
   * Block boundaries leave no trace: two processors that heard the same stream, in whatever blocks
   * and whatever muting produced it, have posted the same frames and hold the same rest.
   */
  lemma BlocksLeaveNoTrace(one: VoiceCaptureProcessor, other: VoiceCaptureProcessor)
    requires one.Valid() && other.Valid() && one.ratio == other.ratio && one.heard == other.heard
    ensures one.posted == other.posted && one.position == other.position
    ensures one.frame[..one.frameOffset] == other.frame[..other.frameOffset]
  {
    FramesAreGroups(one);
    FramesAreGroups(other);
    assert |one.posted| == |other.posted|;
    assert forall i :: 0 <= i < |one.posted| ==> one.posted[i] == other.posted[i];
  }

  /** Posted frames are the consecutive groups of 640 outputs. */
  lemma FramesAreGroups(processor: VoiceCaptureProcessor)
    requires processor.Valid()
    ensures var output := Output(processor.heard, processor.ratio);
            && |processor.posted| == |output| / FRAME_LENGTH
            && (forall i :: 0 <= i < |processor.posted| ==>
                  && (i + 1) * FRAME_LENGTH <= |output|
                  && processor.posted[i] == output[i * FRAME_LENGTH..(i + 1) * FRAME_LENGTH])
            && processor.frame[..processor.frameOffset] == output[|processor.posted| * FRAME_LENGTH..]
  {
    var posted, output := processor.posted, Output(processor.heard, processor.ratio);
    var cut := Concat(posted);
    assert output == cut + processor.frame[..processor.frameOffset];
    if posted != [] {
      ConcatOfFrames(posted, 0);
      forall i | 0 <= i < |posted|
        ensures (i + 1) * FRAME_LENGTH <= |output| && posted[i] == output[i * FRAME_LENGTH..(i + 1) * FRAME_LENGTH]
      {
        ConcatOfFrames(posted, i);
        assert output[i * FRAME_LENGTH..(i + 1) * FRAME_LENGTH] == cut[i * FRAME_LENGTH..(i + 1) * FRAME_LENGTH];
      }
    }
  }
}

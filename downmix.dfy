/**
 * The stereo-to-mono downmix done by the voice-packet handler before the
 * samples are handed to the recorder: the decoded packet is interleaved
 * stereo `i16` (left, right, left, right, ...), `chunks_exact(2)` cuts it
 * into exact pairs (an unpaired trailing sample is dropped), and each pair
 * `cs` becomes `((cs[0] as i32 + cs[1] as i32) / 2) as i16`.
 */
module Downmix {
  import opened RustInts

  /** One pair, computed exactly as the Rust expression does, casts included. */
  function MixPair(left: i16, right: i16): i16 {
    CastI32ToI16(HalveI32(AddI32(WidenI16(left), WidenI16(right))))
  }

  /** Reference: the mathematical mean of the pair, rounded toward zero. */
  function Mean(left: int, right: int): (m: int)
    ensures 0 <= left + right ==> 0 <= left + right - 2 * m <= 1
    ensures left + right < 0 ==> 0 <= 2 * m - (left + right) <= 1
  {
    var sum := left + right;
    if sum >= 0 then sum / 2 else -((-sum) / 2)
  }

  /**
   * No step of the Rust expression overflows: the `i32` sum is the exact sum,
   * the halved value fits in `i16`, so the final `as i16` loses nothing, and
   * the result is the mean of the pair, between the two inputs.
   */
  lemma MixPairExact(left: i16, right: i16)
    ensures AddI32(WidenI16(left), WidenI16(right)) as int == left as int + right as int
    ensures I16_MIN <= HalveI32(AddI32(WidenI16(left), WidenI16(right))) as int <= I16_MAX
    ensures MixPair(left, right) as int == Mean(left as int, right as int)
    ensures (if left <= right then left else right) <= MixPair(left, right)
    ensures MixPair(left, right) <= (if left <= right then right else left)
  {
    var sum := AddI32(WidenI16(left), WidenI16(right));
    assert sum as int == left as int + right as int;
    var half := HalveI32(sum);
    assert I16_MIN <= half as int <= I16_MAX;
    assert CastI32ToI16(half) as int == half as int;
  }

  /** The downmix of a whole packet, pair by pair. */
  function Downmix(audio: seq<i16>): (mono: seq<i16>)
    ensures |mono| == |audio| / 2
    ensures forall k :: 0 <= k < |mono| ==> mono[k] == MixPair(audio[2 * k], audio[2 * k + 1])
  {
    if |audio| < 2 then [] else [MixPair(audio[0], audio[1])] + Downmix(audio[2..])
  }

  /** Every output sample is the rounded-toward-zero mean of its input pair. */
  lemma DownmixIsMean(audio: seq<i16>, k: nat)
    requires k < |audio| / 2
    ensures Downmix(audio)[k] as int == Mean(audio[2 * k] as int, audio[2 * k + 1] as int)
  {
    MixPairExact(audio[2 * k], audio[2 * k + 1]);
  }

  /** A trailing sample without a partner contributes nothing. */
  lemma {:induction false} DownmixDropsUnpaired(audio: seq<i16>, x: i16)
    requires |audio| % 2 == 0
    ensures Downmix(audio + [x]) == Downmix(audio)
  {
    if |audio| >= 2 {
      assert (audio + [x])[2..] == audio[2..] + [x];
      DownmixDropsUnpaired(audio[2..], x);
    } else {
      assert audio == [];
    }
  }

  /** Packets of whole pairs downmix independently: the downmix is a homomorphism. */
  lemma {:induction false} DownmixConcat(a: seq<i16>, b: seq<i16>)
    requires |a| % 2 == 0
    ensures Downmix(a + b) == Downmix(a) + Downmix(b)
  {
    if a == [] {
      assert a + b == b;
    } else {
      assert (a + b)[2..] == a[2..] + b;
      DownmixConcat(a[2..], b);
    }
  }

  /** Interleaves two channels into the stereo layout of a decoded packet. */
  function Interleave(left: seq<i16>, right: seq<i16>): (stereo: seq<i16>)
    requires |left| == |right|
    ensures |stereo| == 2 * |left|
    ensures forall k :: 0 <= k < |left| ==> stereo[2 * k] == left[k] && stereo[2 * k + 1] == right[k]
  {
    if left == [] then [] else [left[0], right[0]] + Interleave(left[1..], right[1..])
  }

  /** Downmixing two channels gives, sample by sample, their mean. */
  lemma DownmixInterleaved(left: seq<i16>, right: seq<i16>)
    requires |left| == |right|
    ensures |Downmix(Interleave(left, right))| == |left|
    ensures forall k :: 0 <= k < |left| ==>
      Downmix(Interleave(left, right))[k] as int == Mean(left[k] as int, right[k] as int)
  {
    var stereo := Interleave(left, right);
    forall k | 0 <= k < |left|
      ensures Downmix(stereo)[k] as int == Mean(left[k] as int, right[k] as int)
    {
      DownmixIsMean(stereo, k);
    }
  }

  /** A mono signal duplicated on both channels comes back unchanged. */
  lemma DownmixDuplicated(mono: seq<i16>)
    ensures Downmix(Interleave(mono, mono)) == mono
  {
    DownmixInterleaved(mono, mono);
    var r := Downmix(Interleave(mono, mono));
    forall k | 0 <= k < |mono| ensures r[k] == mono[k] {
      assert r[k] as int == Mean(mono[k] as int, mono[k] as int);
    }
  }
}

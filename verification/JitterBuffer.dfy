/**
 The jitter buffer object: a ring, the sample rate and the in-place histogram, and the time of
 the last evaluation, which all buffers share. Every method takes exactly the step the
 specification gives for it.
 */
module JitterBuffer {
  import opened SampleRing
  import opened AudioSpec

  /** When a buffer was last evaluated, 0 if none ever was. There is one for all buffers. */
  class EvaluationTime {
    var tms: int

    constructor ()
      ensures tms == 0
    {
      tms := 0;
    }
  }

  class AudioBuffer {
    var ring: Ring
    var rate: nat
    const hist: array<nat>
    const last: EvaluationTime

    ghost predicate Valid()
      reads this, ring, ring.data, hist
    {
      ring.Valid() && hist.Length == BUCKETS && rate > 0 && ring.data.Length == 3 * rate
    }

    ghost function View(): (a: Audio)
      requires Valid()
      reads this, ring, ring.data, hist, last
      ensures WellFormed(a)
    {
      Audio(ring.data.Length, rate, ring.Contents(), hist[..], last.tms)
    }

    constructor (shared: EvaluationTime)
      ensures Valid() && fresh(ring) && fresh(ring.data) && fresh(hist) && last == shared
      ensures View() == Initial().(tms := shared.tms)
    {
      ring := new Ring(48000 * 2 * 3000 / 1000);
      rate := 48000 * 2;
      hist := new nat[BUCKETS](_ => 0);
      last := shared;
      new;
      assert hist[..] == Empty();
    }

    method Resize(sampleRate: nat, channels: nat)
      requires Valid() && sampleRate > 0 && channels > 0
      modifies this
      ensures Valid() && (ring == old(ring) || (fresh(ring) && fresh(ring.data)))
      ensures View() == Step(old(View()), AudioSpec.Resize(sampleRate, channels))
    {
      StepWellFormed(View(), AudioSpec.Resize(sampleRate, channels));
      var capacity := sampleRate * channels * 3000 / 1000;
      if capacity != ring.data.Length {
        ring := new Ring(capacity);
        rate := sampleRate * channels;
      }
    }

    /** Append, keeping the newest samples that fit; returns how many are then buffered. */
    method AppendPcm2(pcm: seq<Sample>) returns (having: nat)
      requires Valid()
      modifies ring, ring.data
      ensures Valid()
      ensures View() == Step(old(View()), Append(pcm))
      ensures having == |View().queue|
    {
      var cap := ring.data.Length;
      if |pcm| > cap {
        ring.PushSliceOverwrite(pcm);
        return cap;
      }
      having := ring.len + |pcm|;
      if having > cap {
        MakeRoom(pcm, having - cap);
      }
      ring.PushSliceOverwrite(pcm);
      having := ring.len;
    }

    /** Skip the oldest `count` samples, so that `pcm` just fits. */
    method MakeRoom(ghost pcm: seq<Sample>, count: nat)
      requires Valid() && |pcm| <= ring.data.Length < ring.len + |pcm| == ring.data.Length + count
      modifies ring
      ensures Valid() && ring.len + |pcm| == ring.data.Length
      ensures LastN(ring.Contents() + pcm, ring.data.Length) == LastN(old(ring.Contents()) + pcm, ring.data.Length)
    {
      SkipThenAppend(ring.Contents(), pcm, ring.data.Length, count);
      ring.Skip(count);
    }

    /**
     One pass over the histogram finds both figures and clears it, all but the peak bucket.
     */
    method ScanHistogram() returns (zero: nat, max: nat)
      requires hist.Length == BUCKETS
      modifies hist
      ensures zero == ZeroPrefix(old(hist[..]), BUCKETS)
      ensures max == Peak(old(hist[..]), BUCKETS) < BUCKETS
      ensures forall k :: 0 <= k < BUCKETS && k != max ==> hist[k] == 0
    {
      ghost var was := hist[..];
      zero, max := 0, 0;
      for i := 0 to BUCKETS
        invariant zero == ZeroPrefix(was, i)
        invariant max == Peak(was, i) && (max < i || i == 0)
        invariant forall k :: 0 <= k < i && k != max ==> hist[k] == 0
        invariant i > 0 ==> hist[max] == (if max == 0 then 0 else was[max])
        invariant forall k :: i <= k < BUCKETS ==> hist[k] == was[k]
      {
        if hist[i] == 0 && zero == i {
          zero := zero + 1;
        }
        if hist[i] > hist[max] {
          hist[max] := 0;
          max := i;
        } else {
          hist[i] := 0;
        }
      }
    }

    /** Count a water mark. */
    method Record(having: nat)
      requires Valid()
      modifies hist
      ensures hist[..] == Recorded(old(View()), having)
    {
      var i := having * 10 / rate;
      if i > 29 {
        i := 29;
      }
      hist[i] := hist[i] + 1;
    }

    /** Decide from the histogram how much to drop, drop it, and start a new histogram. */
    method Evaluate()
      requires Valid()
      modifies ring, hist
      ensures Valid() && hist[..] == Empty()
      ensures ring.Contents() == old(ring.Contents())[
        Dropped(old(ring.len), Wanted(ring.data.Length, ZeroPrefix(old(hist[..]), BUCKETS),
                                      Peak(old(hist[..]), BUCKETS)))..]
    {
      var zero, max := ScanHistogram();
      hist[max] := 0;
      assert hist[..] == Empty();
      var skip := SkipFor(ring.data.Length, zero, max);
      SkipIfPlenty(skip);
    }

    method SkipIfPlenty(skip: nat)
      requires Valid()
      modifies ring
      ensures Valid()
      ensures ring.Contents() == old(ring.Contents())[Dropped(old(ring.len), skip)..]
    {
      if ring.len > skip * 3 && skip > 0 {
        ring.Skip(skip);
      }
    }

    method TryShrink(having: nat, now: int)
      requires Valid()
      modifies last, ring, hist
      ensures Valid()
      ensures View() == Step(old(View()), Shrink(having, now))
    {
      Record(having);
      if last.tms == 0 {
        last.tms := now;
        return;
      } else if now < last.tms + GATE_MS {
        return;
      }
      last.tms := now;
      Evaluate();
    }

    method AppendPcm(pcm: seq<Sample>, now: int)
      requires Valid()
      modifies last, ring, ring.data, hist
      ensures Valid()
      ensures var appended := Step(old(View()), Append(pcm));
              View() == Step(appended, Shrink(|appended.queue|, now))
    {
      var having := AppendPcm2(pcm);
      TryShrink(having, now);
    }

    /** The device callback: fill `device` with what is buffered, then silence. */
    method FillDevice(device: array<Sample>)
      requires Valid() && device != ring.data
      modifies ring, device
      ensures Valid()
      ensures View() == Step(old(View()), Play(device.Length))
      ensures var n := Min(device.Length, |old(View()).queue|);
              && device[..n] == old(View()).queue[..n]
              && forall k :: n <= k < device.Length ==> device[k] == SILENCE
    {
      var elems := TakeFor(device.Length);
      Render(elems, device);
    }

    method TakeFor(count: nat) returns (elems: array<Sample>)
      requires Valid()
      modifies ring
      ensures Valid() && fresh(elems)
      ensures ring.Contents() == old(ring.Contents())[Min(count, old(ring.len))..]
      ensures elems[..] == old(ring.Contents())[..Min(count, old(ring.len))]
    {
      var n := Min(count, ring.len);
      elems := new Sample[n](_ => SILENCE);
      if n > 0 {
        ring.PopSlice(elems);
      }
      assert elems[..] == elems[..n];
    }
  }

  /** Skipping what will not fit before appending changes nothing. */
  lemma SkipThenAppend(s: seq<Sample>, t: seq<Sample>, n: nat, d: nat)
    requires |t| <= n < |s| + |t| == n + d
    ensures LastN(s[d..] + t, n) == LastN(s + t, n)
  {
  }

  /** How much to drop, given the two figures. */
  method SkipFor(cap: nat, zeroPrefix: nat, peak: nat) returns (skip: nat)
    ensures skip == Wanted(cap, zeroPrefix, peak)
  {
    var zero := zeroPrefix * 2 / 3;
    var max := peak;
    if max < 6 {
      return 0;
    } else if max > zero * 4 {
      max := zero * 4;
    }
    assert max == Level(zeroPrefix, peak);
    skip := ClearLowBit(Share(cap, max) + 1);
  }

  /** Copy the samples into the front of the device buffer and silence the rest. */
  method Render(elems: array<Sample>, device: array<Sample>)
    requires elems != device && elems.Length <= device.Length
    modifies device
    ensures device[..elems.Length] == old(elems[..])
    ensures forall k :: elems.Length <= k < device.Length ==> device[k] == SILENCE
  {
    for i := 0 to device.Length
      invariant forall k :: 0 <= k < i ==> device[k] == (if k < elems.Length then elems[k] else SILENCE)
    {
      device[i] := if i < elems.Length then elems[i] else SILENCE;
    }
  }
}

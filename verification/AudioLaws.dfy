/**
 What each step does to the buffer, in plain numbers: what is kept, recorded and dropped, and
 when. Together with the meaning of the two histogram figures this leaves nothing open.
 */
module AudioLaws {
  import opened SampleRing
  import opened AudioSpec
  import opened AudioDrops

  /** A new buffer: three seconds at 96000 samples per second, and thirty empty buckets. */
  lemma NewBufferIs()
    ensures var a := Initial();
            && a.cap == 288000 && a.rate == 96000 && a.queue == [] && a.tms == 0
            && |a.hist| == 30 && forall b :: 0 <= b < 30 ==> a.hist[b] == 0
  {
  }

  /** Old and new samples in order, all of them if they fit and else the newest that do. */
  lemma AppendKeepsNewest(a: Audio, pcm: seq<Sample>)
    requires WellFormed(a)
    ensures var all, a' := a.queue + pcm, Step(a, Append(pcm));
            && a' == a.(queue := a'.queue)
            && |a'.queue| == (if |all| <= a.cap then |all| else a.cap)
            && a'.queue == all[|all| - |a'.queue|..]
  {
  }

  /** The oldest samples go, as many as are asked for and there. */
  lemma PlayTakesOldest(a: Audio, count: nat)
    requires WellFormed(a)
    ensures var a' := Step(a, Play(count));
            && a' == a.(queue := a'.queue)
            && |a'.queue| == (if count <= |a.queue| then |a.queue| - count else 0)
            && a'.queue == a.queue[|a.queue| - |a'.queue|..]
  {
  }

  /** The same capacity changes nothing; another one empties the buffer and keeps the statistics. */
  lemma ResizeKeepsOrEmpties(a: Audio, sampleRate: nat, channels: nat)
    requires WellFormed(a) && sampleRate > 0 && channels > 0
    ensures var rate, a' := sampleRate * channels, Step(a, Resize(sampleRate, channels));
            a' == if a.cap == 3 * rate then a else a.(cap := 3 * rate, rate := rate, queue := [])
  {
  }

  /** The bucket of a mark: its tenths of a second, 2.9 s and more together. */
  predicate InBucket(having: nat, rate: nat, b: nat) {
    b <= 29 && b * rate <= 10 * having && (b < 29 ==> 10 * having < (b + 1) * rate)
  }

  /** The marks with the new one counted. */
  predicate CountsMark(a: Audio, having: nat, b: nat, hist: seq<nat>) {
    && |a.hist| == |hist| == 30 && InBucket(having, a.rate, b)
    && forall i :: 0 <= i < 30 ==> hist[i] == a.hist[i] + (if i == b then 1 else 0)
  }

  lemma RecordedCounts(a: Audio, having: nat, b: nat)
    requires WellFormed(a) && InBucket(having, a.rate, b)
    ensures CountsMark(a, having, b, Recorded(a, having))
  {
    BucketIs(having, a.rate, b);
  }

  /** The first mark ever, and every mark within 12 s of the last evaluation, is only counted. */
  lemma MarkIsCounted(a: Audio, having: nat, now: int, b: nat)
    requires WellFormed(a) && InBucket(having, a.rate, b) && (a.tms == 0 || now - a.tms < 12000)
    ensures var a' := Step(a, Shrink(having, now));
            && a' == a.(hist := a'.hist, tms := if a.tms == 0 then now else a.tms)
            && CountsMark(a, having, b, a'.hist)
  {
    RecordedCounts(a, having, b);
  }

  /** The first and the fullest bucket of the marks. */
  predicate Figures(hist: seq<nat>, z: nat, p: nat) {
    && |hist| == 30 && z < 30 && p < 30
    && hist[z] > 0 && (forall i :: 0 <= i < z ==> hist[i] == 0)
    && (forall i :: 1 <= i < 30 && p > 0 ==> hist[i] <= hist[p])
    && (forall i :: 1 <= i < p ==> hist[i] < hist[p])
    && (p == 0 ==> forall i :: 1 <= i < 30 ==> hist[i] == 0)
    && (p > 0 ==> hist[p] > 0)
  }

  lemma FiguresAre(hist: seq<nat>, z: nat, p: nat)
    requires Figures(hist, z, p)
    ensures ZeroPrefix(hist, BUCKETS) == z && Peak(hist, BUCKETS) == p
  {
    ZeroPrefixMeaning(hist, BUCKETS);
    PeakMeaning(hist, BUCKETS);
  }

  /** The level: the fullest bucket, but at most four times two thirds of the first, rounded down. */
  ghost predicate LevelOf(z: nat, p: nat, level: nat) {
    exists q: nat :: 3 * q <= 2 * z < 3 * q + 3 && level == if p <= 4 * q then p else 4 * q
  }

  /** The drop: the even number nearest to a fortieth of a second for each unit of the level. */
  predicate DropOf(rate: nat, level: nat, d: nat) {
    d % 2 == 0 && 40 * (d - 1) <= rate * level < 40 * (d + 1)
  }

  lemma DropIs(rate: nat, level: nat, d: nat)
    requires DropOf(rate, level, d)
    ensures ClearLowBit(Share(3 * rate, level) + 1) == d
  {
    var x := rate * level;
    assert 3 * rate * level == 3 * x;
    assert Share(3 * rate, level) == x / 40;
  }

  lemma WantedIs(rate: nat, z: nat, p: nat, level: nat, d: nat)
    requires LevelOf(z, p, level) && DropOf(rate, level, d)
    ensures Wanted(3 * rate, z, p) == if p >= 6 then d else 0
  {
    DropIs(rate, level, d);
  }

  /**
   Any other mark is an evaluation. It drops exactly the drop of the level, if the fullest bucket
   is at 0.6 s or later and more than three times as much is buffered, and the counting starts
   anew.
   */
  lemma EvaluationDrops(a: Audio, having: nat, now: int, b: nat, hist: seq<nat>, z: nat, p: nat, level: nat, d: nat)
    requires WellFormed(a) && a.tms != 0 && now - a.tms >= 12000
    requires CountsMark(a, having, b, hist) && Figures(hist, z, p) && LevelOf(z, p, level) && DropOf(a.rate, level, d)
    ensures var a' := Step(a, Shrink(having, now));
            && a' == a.(queue := a'.queue, hist := a'.hist, tms := now)
            && |a'.hist| == 30 && (forall i :: 0 <= i < 30 ==> a'.hist[i] == 0)
            && a'.queue == a.queue[if p >= 6 && |a.queue| > 3 * d then d else 0..]
  {
    RecordedCounts(a, having, b);
    assert hist == Recorded(a, having);
    FiguresAre(hist, z, p);
    WantedIs(a.rate, z, p, level, d);
  }

  /** There is such a drop for every level, and only one. */
  lemma DropExists(rate: nat, level: nat) returns (d: nat)
    ensures DropOf(rate, level, d)
    ensures forall e: nat :: DropOf(rate, level, e) ==> e == d
  {
    d := ClearLowBit(rate * level / 40 + 1);
  }

  /** At 48 kHz stereo, with the lowest mark at 0.5 s and most at 2 s, 28800 samples of two seconds go. */
  lemma DropAt48kHz(a: Audio, having: nat, now: int, b: nat, hist: seq<nat>)
    requires WellFormed(a) && a.rate == 96000 && |a.queue| == 192000 && a.tms != 0 && now - a.tms >= 12000
    requires CountsMark(a, having, b, hist) && Figures(hist, 5, 20)
    ensures Step(a, Shrink(having, now)).queue == a.queue[28800..]
  {
    assert LevelOf(5, 20, 12) by {
      assert 3 * 3 <= 2 * 5 < 3 * 3 + 3;
    }
    EvaluationDrops(a, having, now, b, hist, 5, 20, 12, 28800);
  }

  /** Another buffer's evaluation only moves the time. */
  lemma ElsewhereMovesTime(a: Audio, now: int)
    requires WellFormed(a)
    ensures Step(a, EvaluatedElsewhere(now)) == a.(tms := now)
  {
  }
}

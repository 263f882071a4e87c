/**
 Frames of several channels: which formats can have a frame split by the statistical drop, the
 only thing that can split one.
 */
module AudioFrames {
  import opened SampleRing
  import opened AudioSpec
  import opened AudioDrops

  /** Buffers, the rest of the stream and the ring front all sit on frame boundaries. */
  ghost predicate Aligned(a: Audio, h: History, channels: nat)
    requires channels > 0
  {
    a.cap % channels == 0 && |h.appended| % channels == 0 && Front(h) % channels == 0
  }

  /** Only whole frames are appended and played, and the format keeps its channels. */
  predicate WholeFrames(op: Op, channels: nat)
    requires channels > 0
  {
    match op
    case Append(pcm) => |pcm| % channels == 0
    case Play(count) => count % channels == 0
    case Resize(_, c) => c == channels
    case _ => true
  }

  // ---- divisibility ----

  lemma MulSign(d: int, c: nat)
    requires c > 0
    ensures d >= 1 ==> d * c >= c
    ensures d <= -1 ==> d * c <= 0 - c
  {
  }

  lemma ModSum(x: int, y: int, c: nat)
    requires c > 0 && x % c == 0
    ensures (x + y) % c == y % c
  {
    var d := (x + y) / c - x / c - y / c;
    assert x == c * (x / c);
    assert y == c * (y / c) + y % c;
    assert x + y == c * ((x + y) / c) + (x + y) % c;
    assert y % c - (x + y) % c == d * c by {
      assert c * ((x + y) / c) - c * (x / c) - c * (y / c) == d * c;
    }
    MulSign(d, c);
  }

  lemma MultipleMod(k: nat, c: nat)
    requires c > 0
    ensures (c * k) % c == 0
  {
    var d := (c * k) / c - k;
    assert c * k == c * ((c * k) / c) + (c * k) % c;
    assert (c * k) % c == (0 - d) * c;
    MulSign(0 - d, c);
  }

  // ---- one step ----

  /**
   Starting on a frame boundary, a step ends on one unless an evaluation drops a part of a
   frame; appending, overwriting and playing never split one.
   */
  lemma StepAligned(a: Audio, h: History, op: Op, channels: nat)
    requires channels > 0 && Callable(op) && WellFormed(a) && Fifo(a, h)
    requires Aligned(a, h, channels) && WholeFrames(op, channels)
    ensures Aligned(Step(a, op), Track(h, a, op), channels)
            <==> (op.Shrink? && GateOpen(a, op.now) ==> Evaluation(a, op.having) % channels == 0)
  {
    var a' := Step(a, op);
    var front, total := Front(h), |h.appended|;
    match op
    case Append(pcm) =>
      ModSum(total, |pcm|, channels);
      ModSum(a.cap, total + |pcm| - a.cap, channels);
    case Play(count) =>
      ModSum(front, count, channels);
    case Shrink(having, now) =>
      if GateOpen(a, now) {
        ModSum(front, Evaluation(a, having), channels);
      }
    case Resize(sampleRate, _) =>
      assert a'.cap == channels * (3 * sampleRate) || a'.cap == a.cap;
      MultipleMod(3 * sampleRate, channels);
    case EvaluatedElsewhere(_) =>
  }

  // ---- formats ----

  /** The levels a drop can be based on: four times one, or any bucket from 6 up. */
  predicate Occurs(level: nat) {
    level == 4 || 6 <= level < BUCKETS
  }

  /** The drop of a format at a level, known before anything is played. */
  function DropAt(sampleRate: nat, channels: nat, level: nat): nat {
    ClearLowBit(sampleRate * channels * level / 40 + 1)
  }

  /** Every drop the format can see is a whole number of frames. */
  predicate SafeFormat(sampleRate: nat, channels: nat)
    requires channels > 0
  {
    forall level: nat :: level < BUCKETS && Occurs(level) ==> DropAt(sampleRate, channels, level) % channels == 0
  }

  lemma ShareOfRate(rate: nat, level: nat)
    ensures Share(3 * rate, level) == rate * level / 40
  {
    var q := rate * level;
    assert 3 * rate * level == 3 * q;
  }

  /** Whatever the marks, an evaluation drops nothing or the drop of some level that occurs. */
  lemma EvaluationIsDropAt(a: Audio, having: nat, sampleRate: nat, channels: nat)
    requires WellFormed(a) && a.rate == sampleRate * channels
    ensures Evaluation(a, having) == 0 ||
            exists level: nat :: level < BUCKETS && Occurs(level) &&
              Evaluation(a, having) == DropAt(sampleRate, channels, level)
  {
    var hist := Recorded(a, having);
    var z, p := ZeroPrefix(hist, BUCKETS), Peak(hist, BUCKETS);
    var level := Level(z, p);
    WantedIsShare(a.cap, z, p);
    if p >= 6 && z >= 2 {
      ShareOfRate(a.rate, level);
      assert Occurs(level) && level < BUCKETS;
    }
  }

  /** Whole frames only, and at most the one sample rate. */
  ghost predicate FormatRun(ops: seq<Op>, sampleRate: nat, channels: nat)
    requires channels > 0
  {
    forall op :: op in ops ==> Callable(op) && WholeFrames(op, channels) && (op.Resize? ==> op.sampleRate == sampleRate)
  }

  /** With a safe format no run ever splits a frame. */
  lemma {:induction false} SafeFormatAligned(a: Audio, h: History, ops: seq<Op>, sampleRate: nat, channels: nat)
    requires channels > 0 && SafeFormat(sampleRate, channels) && FormatRun(ops, sampleRate, channels)
    requires WellFormed(a) && a.rate == sampleRate * channels && Fifo(a, h) && Aligned(a, h, channels)
    ensures Aligned(Run(a, h, ops).0, Run(a, h, ops).1, channels)
    decreases |ops|
  {
    if ops == [] {
    } else {
      var op := ops[0];
      assert op in ops;
      if op.Shrink? {
        EvaluationIsDropAt(a, op.having, sampleRate, channels);
      }
      StepAligned(a, h, op, channels);
      StepWellFormed(a, op);
      StepFifo(a, h, op);
      SafeFormatAligned(Step(a, op), Track(h, a, op), ops[1..], sampleRate, channels);
    }
  }

  // ---- splitting a frame with an unsafe format ----

  /** Marks that lead to a given level: the first bucket not empty, and the fullest. */
  function ZeroFor(level: nat): nat {
    if level == 4 then 2 else (3 * ((level + 3) / 4) + 1) / 2
  }

  function PeakFor(level: nat): nat {
    if level == 4 then 6 else level
  }

  lemma LevelReached(level: nat)
    requires Occurs(level)
    ensures 0 < ZeroFor(level) < PeakFor(level) < BUCKETS && PeakFor(level) >= 6 && level <= PeakFor(level)
    ensures Level(ZeroFor(level), PeakFor(level)) == level
  {
  }

  /** The fewest frames that count as bucket b. */
  function FramesFor(sampleRate: nat, b: nat): nat {
    (b * sampleRate + 9) / 10
  }

  lemma FramesBucket(sampleRate: nat, channels: nat, b: nat)
    requires sampleRate >= 10 && channels > 0 && b < BUCKETS
    ensures Bucket(channels * FramesFor(sampleRate, b), sampleRate * channels) == b
    ensures FramesFor(sampleRate, b) <= 3 * sampleRate
    ensures b * (sampleRate * channels) <= 10 * (channels * FramesFor(sampleRate, b))
  {
    FramesBounds(sampleRate, b);
    BoundsOfSamples(sampleRate, channels, FramesFor(sampleRate, b), b);
    ScaleStrict(0, sampleRate, channels);
    BucketIs(channels * FramesFor(sampleRate, b), sampleRate * channels, b);
  }

  lemma BoundsOfSamples(sampleRate: nat, channels: nat, w: nat, b: nat)
    requires channels > 0 && b * sampleRate <= 10 * w < (b + 1) * sampleRate
    ensures b * (sampleRate * channels) <= 10 * (channels * w) < (b + 1) * (sampleRate * channels)
  {
    Scale(b * sampleRate, 10 * w, channels);
    ScaleStrict(10 * w, (b + 1) * sampleRate, channels);
    Associate(b, sampleRate, channels);
    Associate(b + 1, sampleRate, channels);
    Associate(10, w, channels);
  }

  lemma FramesBounds(sampleRate: nat, b: nat)
    requires sampleRate >= 10
    ensures b * sampleRate <= 10 * FramesFor(sampleRate, b) < (b + 1) * sampleRate
    ensures b < BUCKETS ==> FramesFor(sampleRate, b) <= 3 * sampleRate
  {
    assert (b + 1) * sampleRate == b * sampleRate + sampleRate;
    if b < BUCKETS {
      Scale(b, 29, sampleRate);
    }
  }

  lemma ScaleStrict(x: nat, y: nat, k: nat)
    requires x < y && k > 0
    ensures x * k < y * k
  {
    Scale(x + 1, y, k);
    assert (x + 1) * k == x * k + k;
  }

  lemma Associate(x: nat, y: nat, z: nat)
    ensures (x * y) * z == x * (y * z) == x * (z * y)
  {
  }

  /** Three marks: one low, two at the same higher level. */
  function ThreeMarks(low: seq<Sample>, more: seq<Sample>): seq<Op> {
    (Marked(low, |low|, 1) + Marked(more, |low| + |more|, 2)) + Marked([], |low| + |more|, 3)
  }

  /** An empty buffer after the three marks. */
  ghost predicate AfterThreeMarks(a: Audio, h: History, low: seq<Sample>, more: seq<Sample>, a': Audio, h': History)
    requires Runnable(a)
  {
    && a' == Audio(a.cap, a.rate, low + more,
                   Empty()[Bucket(|low|, a.rate) := 1][Bucket(|low| + |more|, a.rate) := 2], 1)
    && h'.appended == h.appended + (low + more) && Front(h') == Front(h)
  }

  lemma MarksCallable(low: seq<Sample>, more: seq<Sample>)
    ensures forall op :: op in ThreeMarks(low, more) ==> Callable(op)
  {
  }

  lemma RunThreeMarks(a: Audio, h: History, low: seq<Sample>, more: seq<Sample>)
    requires EmptyBuffer(a) && |low| + |more| <= a.cap
    requires Bucket(|low|, a.rate) != Bucket(|low| + |more|, a.rate)
    ensures forall op :: op in ThreeMarks(low, more) ==> Callable(op)
    ensures var (a', h') := Run(a, h, ThreeMarks(low, more));
            AfterThreeMarks(a, h, low, more, a', h') && WellFormed(a')
  {
    var ops, last := Marked(low, |low|, 1) + Marked(more, |low| + |more|, 2), Marked([], |low| + |more|, 3);
    MarksCallable(low, more);
    var a1, h1, a2, h2 := RunTwoMarks(a, h, low, more);
    RunMarked(a2, h2, [], 3);
    var (a3, h3) := Run(a2, h2, last);
    ChainMarks(a, h, a1, h1, a2, h2, a3, h3, low, more);
    RunConcat(a, h, ops, last);
  }

  lemma RunTwoMarks(a: Audio, h: History, low: seq<Sample>, more: seq<Sample>)
    returns (a1: Audio, h1: History, a2: Audio, h2: History)
    requires WellFormed(a) && a.queue == [] && a.tms == 0 && |low| + |more| <= a.cap
    ensures Runnable(a1) && MarkStep(a, h, low, 1, a1, h1) && MarkStep(a1, h1, more, 2, a2, h2)
    ensures WellFormed(a2) && |a2.queue| == |low| + |more| && a2.cap == a.cap && a2.tms == 1
    ensures Run(a, h, Marked(low, |low|, 1) + Marked(more, |low| + |more|, 2)) == (a2, h2)
  {
    RunMarked(a, h, low, 1);
    a1, h1 := Run(a, h, Marked(low, |low|, 1)).0, Run(a, h, Marked(low, |low|, 1)).1;
    RunMarked(a1, h1, more, 2);
    RunConcat(a, h, Marked(low, |low|, 1), Marked(more, |low| + |more|, 2));
    var last := Run(a1, h1, Marked(more, |low| + |more|, 2));
    a2, h2 := last.0, last.1;
  }

  lemma ChainMarks(a: Audio, h: History, a1: Audio, h1: History, a2: Audio, h2: History, a3: Audio, h3: History,
                   low: seq<Sample>, more: seq<Sample>)
    requires WellFormed(a) && a.queue == [] && a.hist == Empty() && a.tms == 0
    requires Runnable(a1) && Runnable(a2)
    requires Bucket(|low|, a.rate) != Bucket(|low| + |more|, a.rate)
    requires MarkStep(a, h, low, 1, a1, h1) && MarkStep(a1, h1, more, 2, a2, h2) && MarkStep(a2, h2, [], 3, a3, h3)
    ensures AfterThreeMarks(a, h, low, more, a3, h3)
  {
    Appends(a.queue, low, more);
    Appends(h.appended, low, more);
    assert [] + (low + more) == low + more;
    MarksCounted(a, a1, a2, |low|, |low| + |more|);
  }

  lemma MarksCounted(a: Audio, a1: Audio, a2: Audio, low: nat, high: nat)
    requires WellFormed(a) && a.hist == Empty() && a1.rate == a2.rate == a.rate
    requires a1.hist == Recorded(a, low) && a2.hist == Recorded(a1, high)
    requires Bucket(low, a.rate) != Bucket(high, a.rate)
    ensures Recorded(a2, high) == Empty()[Bucket(low, a.rate) := 1][Bucket(high, a.rate) := 2]
  {
  }

  lemma Appends(s: seq<Sample>, low: seq<Sample>, more: seq<Sample>)
    ensures ((s + low) + more) + [] == s + (low + more)
  {
  }

  /** The run: marks at the two buckets, and once the gate is open one more at the higher. */
  function SplitRun(low: seq<Sample>, more: seq<Sample>): seq<Op> {
    (ThreeMarks(low, more) + [Append([])]) + [Shrink(|low| + |more|, 12001)]
  }

  /** Silence in the two amounts the run needs. */
  function Frames(sampleRate: nat, channels: nat, level: nat): (r: (seq<Sample>, seq<Sample>))
    requires Occurs(level) && sampleRate >= 10 && channels > 0
    ensures |r.0| == channels * FramesFor(sampleRate, ZeroFor(level))
    ensures |r.0| + |r.1| == channels * FramesFor(sampleRate, PeakFor(level))
  {
    LevelReached(level);
    var w0, w1 := FramesFor(sampleRate, ZeroFor(level)), FramesFor(sampleRate, PeakFor(level));
    Scale(ZeroFor(level), PeakFor(level), sampleRate);
    Scale(w0, w1, channels);
    (seq(channels * w0, _ => SILENCE), seq(channels * w1 - channels * w0, _ => SILENCE))
  }

  /** An empty buffer of a format. */
  ghost predicate EmptyFormat(a: Audio, sampleRate: nat, channels: nat) {
    EmptyBuffer(a) && a.rate == sampleRate * channels
  }

  lemma EnoughBuffered(rate: nat, level: nat, p: nat, n: nat, skip: nat)
    requires rate >= 40 && 4 <= level <= p && p * rate <= 10 * n
    requires skip <= rate * level / 40 + 1
    ensures n > 3 * skip
  {
    Scale(level, p, rate);
    Scale(4, level, rate);
    var q := rate * level;
    assert q >= 160;
  }

  /** The evaluation at the end of the run drops exactly the drop of the level. */
  lemma SplitRunDrops(a: Audio, sampleRate: nat, channels: nat, level: nat, hist: seq<nat>, having: nat)
    requires WellFormed(a) && a.rate == sampleRate * channels && sampleRate >= 40 && channels > 0 && Occurs(level)
    requires |a.queue| == having == channels * FramesFor(sampleRate, PeakFor(level))
    requires hist == Recorded(a, having)
    requires ZeroPrefix(hist, BUCKETS) == ZeroFor(level) && Peak(hist, BUCKETS) == PeakFor(level)
    ensures DropAt(sampleRate, channels, level) > 0 ==> Evaluation(a, having) == DropAt(sampleRate, channels, level)
  {
    LevelReached(level);
    ShareOfRate(a.rate, level);
    FramesBucket(sampleRate, channels, PeakFor(level));
    Scale(1, channels, sampleRate);
    EnoughBuffered(a.rate, level, PeakFor(level), having, DropAt(sampleRate, channels, level));
  }

  lemma RunSplits(a: Audio, h: History, sampleRate: nat, channels: nat, level: nat)
    requires sampleRate >= 40 && channels > 0 && Occurs(level)
    requires EmptyFormat(a, sampleRate, channels) && NothingStreamed(h)
    requires DropAt(sampleRate, channels, level) % channels != 0
    ensures var (low, more) := Frames(sampleRate, channels, level);
            && FormatRun(SplitRun(low, more), sampleRate, channels)
            && !Aligned(Run(a, h, SplitRun(low, more)).0, Run(a, h, SplitRun(low, more)).1, channels)
  {
    var (low, more) := Frames(sampleRate, channels, level);
    WholeFrameRun(sampleRate, channels, level);
    RunEndsInside(a, h, low, more, sampleRate, channels, level);
  }

  lemma RunEndsInside(a: Audio, h: History, low: seq<Sample>, more: seq<Sample>,
                      sampleRate: nat, channels: nat, level: nat)
    requires sampleRate >= 40 && channels > 0 && Occurs(level)
    requires EmptyFormat(a, sampleRate, channels) && NothingStreamed(h)
    requires DropAt(sampleRate, channels, level) % channels != 0
    requires |low| == channels * FramesFor(sampleRate, ZeroFor(level))
    requires |low| + |more| == channels * FramesFor(sampleRate, PeakFor(level))
    ensures forall op :: op in SplitRun(low, more) ==> Callable(op)
    ensures !Aligned(Run(a, h, SplitRun(low, more)).0, Run(a, h, SplitRun(low, more)).1, channels)
  {
    var drop := DropAt(sampleRate, channels, level);
    NotWhole(drop, channels);
    RunDropsLevel(a, h, low, more, sampleRate, channels, level);
    var (b, g) := Run(a, h, SplitRun(low, more));
    FrontInside(b, g, drop, channels);
  }

  lemma NotWhole(drop: nat, channels: nat)
    requires channels > 0 && drop % channels != 0
    ensures drop > 0
  {
  }

  lemma FrontInside(a: Audio, h: History, front: nat, channels: nat)
    requires channels > 0 && front % channels != 0 && Front(h) == front
    ensures !Aligned(a, h, channels)
  {
  }

  /** The run ends with the front moved by the drop of the level. */
  lemma RunDropsLevel(a: Audio, h: History, low: seq<Sample>, more: seq<Sample>,
                      sampleRate: nat, channels: nat, level: nat)
    requires sampleRate >= 40 && channels > 0 && Occurs(level)
    requires EmptyFormat(a, sampleRate, channels) && DropAt(sampleRate, channels, level) > 0
    requires |low| == channels * FramesFor(sampleRate, ZeroFor(level))
    requires |low| + |more| == channels * FramesFor(sampleRate, PeakFor(level))
    ensures forall op :: op in SplitRun(low, more) ==> Callable(op)
    ensures Front(Run(a, h, SplitRun(low, more)).1) == Front(h) + DropAt(sampleRate, channels, level)
  {
    var n := |low| + |more|;
    LevelReached(level);
    FramesBucket(sampleRate, channels, ZeroFor(level));
    FramesBucket(sampleRate, channels, PeakFor(level));
    FitsCapacity(sampleRate, channels, FramesFor(sampleRate, PeakFor(level)));
    RunThreeMarks(a, h, low, more);
    var (b, g) := Run(a, h, ThreeMarks(low, more));
    FiguresOf(Recorded(b, n), ZeroFor(level), PeakFor(level));
    SplitRunDrops(b, sampleRate, channels, level, Recorded(b, n), n);
    RunLastMark(b, g, n);
    RunThree(a, h, ThreeMarks(low, more), [Append([])], [Shrink(n, 12001)]);
  }

  /** Nothing more comes, and the mark is evaluated. */
  lemma RunLastMark(a: Audio, h: History, n: nat)
    requires WellFormed(a) && a.tms == 1
    ensures var (a1, h1) := Run(a, h, [Append([])]);
            var (a2, h2) := Run(a1, h1, [Shrink(n, 12001)]);
            Front(h2) == Front(h) + Evaluation(a, n)
  {
    RunOne(a, h, Append([]));
    assert a.queue + [] == a.queue;
    var h1 := Track(h, a, Append([]));
    RunOne(a, h1, Shrink(n, 12001));
  }

  lemma FitsCapacity(sampleRate: nat, channels: nat, w: nat)
    requires w <= 3 * sampleRate
    ensures channels * w <= 3 * (sampleRate * channels)
  {
    Scale(w, 3 * sampleRate, channels);
    Associate(3, sampleRate, channels);
  }

  lemma WholeFrameRun(sampleRate: nat, channels: nat, level: nat)
    requires sampleRate >= 10 && channels > 0 && Occurs(level)
    ensures var (low, more) := Frames(sampleRate, channels, level);
            FormatRun(SplitRun(low, more), sampleRate, channels)
  {
    var (low, more) := Frames(sampleRate, channels, level);
    WholeParts(channels, FramesFor(sampleRate, ZeroFor(level)), FramesFor(sampleRate, PeakFor(level)), |low|, |more|);
    SplitRunWhole(low, more, sampleRate, channels);
  }

  lemma WholeParts(channels: nat, w0: nat, w1: nat, low: nat, more: nat)
    requires channels > 0 && low == channels * w0 && low + more == channels * w1
    ensures low % channels == 0 && more % channels == 0
  {
    MultipleMod(w0, channels);
    MultipleMod(w1, channels);
    ModSum(low, more, channels);
  }

  lemma SplitRunWhole(low: seq<Sample>, more: seq<Sample>, sampleRate: nat, channels: nat)
    requires channels > 0 && |low| % channels == 0 && |more| % channels == 0
    ensures FormatRun(SplitRun(low, more), sampleRate, channels)
  {
  }

  /**
   Exactly the safe formats never have a frame split: for every sample rate from 40 and every
   number of channels, all runs from an empty buffer stay on frame boundaries if and only if
   the drop of every level that occurs is a whole number of frames.
   */
  lemma NeverSplitIffSafeFormat(a: Audio, h: History, sampleRate: nat, channels: nat)
    requires sampleRate >= 40 && channels > 0
    requires EmptyFormat(a, sampleRate, channels) && NothingStreamed(h)
    ensures (forall ops :: FormatRun(ops, sampleRate, channels) ==>
               Aligned(Run(a, h, ops).0, Run(a, h, ops).1, channels))
            <==> SafeFormat(sampleRate, channels)
  {
    if SafeFormat(sampleRate, channels) {
      assert a.cap == channels * (3 * sampleRate);
      MultipleMod(3 * sampleRate, channels);
      forall ops | FormatRun(ops, sampleRate, channels)
        ensures Aligned(Run(a, h, ops).0, Run(a, h, ops).1, channels)
      {
        SafeFormatAligned(a, h, ops, sampleRate, channels);
      }
    } else {
      var level: nat :| level < BUCKETS && Occurs(level) && DropAt(sampleRate, channels, level) % channels != 0;
      RunSplits(a, h, sampleRate, channels, level);
    }
  }

  // ---- which formats are safe ----

  /** Mono and stereo, at any rate. */
  lemma MonoStereoSafe(sampleRate: nat, channels: nat)
    requires 1 <= channels <= 2
    ensures SafeFormat(sampleRate, channels)
  {
  }

  /** An even number of channels, such as 5.1 and 7.1, at a rate that is a multiple of 40. */
  lemma EvenChannelsSafe(k: nat, channels: nat)
    requires channels > 0 && channels % 2 == 0
    ensures SafeFormat(40 * k, channels)
  {
    forall level: nat | level < BUCKETS && Occurs(level)
      ensures DropAt(40 * k, channels, level) % channels == 0
    {
      EvenProduct(channels, k * level);
      DropOfMultiple(k, channels, level);
    }
  }

  /** Any number of channels at a rate that is a multiple of 80, such as 48 kHz. */
  lemma EvenRateSafe(k: nat, channels: nat)
    requires channels > 0
    ensures SafeFormat(40 * (2 * k), channels)
  {
    forall level: nat | level < BUCKETS && Occurs(level)
      ensures DropAt(40 * (2 * k), channels, level) % channels == 0
    {
      EvenProduct(2 * k, level);
      EvenProduct(2 * k * level, channels);
      DropOfMultiple(2 * k, channels, level);
    }
  }

  lemma EvenProduct(x: nat, y: nat)
    requires x % 2 == 0
    ensures x * y % 2 == 0 && y * x % 2 == 0
  {
    var half := x / 2;
    assert x * y == 2 * (half * y);
  }

  lemma DropOfMultiple(k: nat, channels: nat, level: nat)
    requires channels > 0 && channels * (k * level) % 2 == 0
    ensures DropAt(40 * k, channels, level) % channels == 0
  {
    var frames := k * level;
    assert 40 * k * channels * level == 40 * (channels * frames);
    assert DropAt(40 * k, channels, level) == channels * frames;
    MultipleMod(frames, channels);
  }

  /** At 44.1 kHz six channels are not: level 11 drops 72766 samples, which is no multiple of six. */
  lemma SurroundUnsafe()
    ensures DropAt(44100, 6, 11) == 72766
    ensures !SafeFormat(44100, 6)
  {
    assert Occurs(11);
  }

  /** So a run at 44.1 kHz with six channels ends inside a frame. */
  lemma SurroundFrameSplit(a: Audio, h: History)
    requires EmptyFormat(a, 44100, 6) && NothingStreamed(h)
    ensures var (low, more) := Frames(44100, 6, 11);
            && FormatRun(SplitRun(low, more), 44100, 6)
            && !Aligned(Run(a, h, SplitRun(low, more)).0, Run(a, h, SplitRun(low, more)).1, 6)
  {
    SurroundUnsafe();
    RunSplits(a, h, 44100, 6, 11);
  }
}

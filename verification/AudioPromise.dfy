/**
 A run that breaks the promise not to drop below 600 ms: frames of 0.1 s, appended as they come
 and played in between, from an empty buffer on. No frame is longer than a decoded packet.
 */
module AudioPromise {
  import opened SampleRing
  import opened AudioSpec
  import opened AudioDrops

  // Levels of the buffer and what is played count in twentieths of a second, k samples each.

  /** A buffer of k samples per twentieth of a second that holds u of them. */
  ghost predicate Level(a: Audio, k: nat, u: nat) {
    WellFormed(a) && a.rate == 20 * k && |a.queue| == u * k
  }

  /** Some is played, a frame comes, and the mark is recorded. */
  function Tick(frame: seq<Sample>, played: nat, having: nat, now: int): seq<Op> {
    [Play(played)] + Marked(frame, having, now)
  }

  lemma Regroup(b: nat, v: nat, k: nat)
    ensures 2 * b * (10 * k) == b * (20 * k) && 2 * (b + 1) * (10 * k) == (b + 1) * (20 * k)
    ensures v * (10 * k) == 10 * (v * k) && (v + 1) * (10 * k) == 10 * (v * k) + 10 * k
  {
  }

  lemma LevelBucket(k: nat, v: nat)
    requires k > 0 && v <= 59
    ensures Bucket(v * k, 20 * k) == v / 2
  {
    var b := v / 2;
    Scale(2 * b, v, 10 * k);
    Scale(v + 1, 2 * (b + 1), 10 * k);
    Regroup(b, v, k);
    BucketIs(v * k, 20 * k, b);
  }

  lemma Units(u: nat, played: nat, k: nat)
    requires played <= u
    ensures (u - played + 2) * k == u * k - played * k + 2 * k
    ensures played * k <= u * k
  {
    Scale(played, u, k);
  }

  function Plus(hist: seq<nat>, b: nat): seq<nat>
    requires b < |hist|
  {
    hist[b := hist[b] + 1]
  }

  /** What a tick does while no evaluation is due. */
  ghost predicate Ticked(a: Audio, a': Audio, k: nat, v: nat)
    requires |a.hist| == BUCKETS && v <= 59
  {
    Level(a', k, v) && a'.tms == a.tms && a'.hist == Plus(a.hist, v / 2)
  }

  lemma RunTick(a: Audio, h: History, frame: seq<Sample>, k: nat, u: nat, played: nat, now: int)
    requires Level(a, k, u) && |frame| == 2 * k && played <= u && u - played + 2 <= 59
    requires a.tms != 0 && !GateOpen(a, now)
    ensures var v := u - played + 2;
            Ticked(a, Run(a, h, Tick(frame, played * k, v * k, now)).0, k, v)
  {
    var v := u - played + 2;
    Units(u, played, k);
    Scale(v, 59, k);
    var play := Play(played * k);
    RunConcat(a, h, [play], Marked(frame, v * k, now));
    RunOne(a, h, play);
    RunMarked(Step(a, play), Track(h, a, play), frame, now);
    LevelBucket(k, v);
  }

  /** The levels stay within the first 29 buckets. */
  predicate Fits(u: nat, played: seq<nat>)
    decreases |played|
  {
    played != [] ==> played[0] <= u && u - played[0] + 2 <= 59 && Fits(u - played[0] + 2, played[1..])
  }

  /** How long a tick takes: what is played takes its time, and a frame comes a millisecond later. */
  function Millis(played: nat): nat {
    50 * played + 1
  }

  function Duration(played: seq<nat>): nat {
    if played == [] then 0 else Millis(played[0]) + Duration(played[1..])
  }

  function Ticks(frame: seq<Sample>, k: nat, u: nat, played: seq<nat>, now: int): seq<Op>
    requires Fits(u, played)
    decreases |played|
  {
    if played == [] then []
    else
      var v, after := u - played[0] + 2, now + Millis(played[0]);
      Tick(frame, played[0] * k, v * k, after) + Ticks(frame, k, v, played[1..], after)
  }

  function LevelAfter(u: nat, played: seq<nat>): nat
    requires Fits(u, played)
    decreases |played|
  {
    if played == [] then u else LevelAfter(u - played[0] + 2, played[1..])
  }

  /** The histogram after the ticks. */
  function MarksAfter(hist: seq<nat>, u: nat, played: seq<nat>): (marks: seq<nat>)
    requires |hist| == BUCKETS && Fits(u, played)
    ensures |marks| == BUCKETS
    decreases |played|
  {
    if played == [] then hist
    else
      var v := u - played[0] + 2;
      MarksAfter(Plus(hist, v / 2), v, played[1..])
  }

  lemma {:induction false} TicksCallable(frame: seq<Sample>, k: nat, u: nat, played: seq<nat>, now: int)
    requires Fits(u, played)
    ensures forall op :: op in Ticks(frame, k, u, played, now) ==> Callable(op)
    decreases |played|
  {
    if played == [] {
    } else {
      TicksCallable(frame, k, u - played[0] + 2, played[1..], now + Millis(played[0]));
    }
  }

  lemma {:induction false} RunTicks(a: Audio, h: History, frame: seq<Sample>, k: nat, u: nat,
                                    played: seq<nat>, now: int)
    requires Level(a, k, u) && |frame| == 2 * k && Fits(u, played)
    requires a.tms != 0 && now + Duration(played) < a.tms + GATE_MS
    ensures forall op :: op in Ticks(frame, k, u, played, now) ==> Callable(op)
    ensures var a' := Run(a, h, Ticks(frame, k, u, played, now)).0;
            && Level(a', k, LevelAfter(u, played)) && a'.tms == a.tms
            && a'.hist == MarksAfter(a.hist, u, played)
    decreases |played|
  {
    TicksCallable(frame, k, u, played, now);
    if played == [] {
    } else {
      var v, after := u - played[0] + 2, now + Millis(played[0]);
      var tick := Tick(frame, played[0] * k, v * k, after);
      RunTick(a, h, frame, k, u, played[0], after);
      var (b, g) := Run(a, h, tick);
      RunTicks(b, g, frame, k, v, played[1..], after);
      RunConcat(a, h, tick, Ticks(frame, k, v, played[1..], after));
    }
  }

  // ---- the run ----

  /** A first frame, and another when the first has long been played: its mark is evaluated. */
  function Warmup(frame: seq<Sample>): seq<Op> {
    Marked(frame, |frame|, 1) + ([Play(|frame|)] + Marked(frame, |frame|, 12001))
  }

  /** A mark under 0.2 s keeps the empty prefix short. */
  lemma LowMarkDropsNothing(a: Audio, having: nat)
    requires WellFormed(a) && Bucket(having, a.rate) <= 1
    ensures Evaluation(a, having) == 0
  {
    var hist := Recorded(a, having);
    ZeroPrefixMeaning(hist, BUCKETS);
    assert hist[Bucket(having, a.rate)] > 0;
    WantedIsShare(a.cap, ZeroPrefix(hist, BUCKETS), Peak(hist, BUCKETS));
  }

  lemma SecondFrameEvaluated(a: Audio, frame: seq<Sample>, k: nat)
    requires Level(a, k, 0) && |frame| == 2 * k && a.tms == 1
    ensures var b := Step(Step(a, Append(frame)), Shrink(2 * k, 12001));
            Level(b, k, 2) && b.hist == Empty() && b.tms == 12001
  {
    LevelBucket(k, 2);
    assert a.queue + frame == frame;
    LowMarkDropsNothing(Step(a, Append(frame)), 2 * k);
  }

  lemma RunSecondFrame(a: Audio, h: History, frame: seq<Sample>, k: nat)
    requires Level(a, k, 2) && |frame| == 2 * k && a.tms == 1
    ensures var b := Run(a, h, [Play(2 * k)] + Marked(frame, 2 * k, 12001)).0;
            Level(b, k, 2) && b.hist == Empty() && b.tms == 12001
  {
    var b, g := Step(a, Play(2 * k)), Track(h, a, Play(2 * k));
    RunOne(a, h, Play(2 * k));
    RunTwo(b, g, Append(frame), Shrink(2 * k, 12001));
    RunConcat(a, h, [Play(2 * k)], Marked(frame, 2 * k, 12001));
    SecondFrameEvaluated(b, frame, k);
  }

  /** Nothing is dropped, and the statistics start again with 0.1 s buffered. */
  lemma RunWarmup(a: Audio, h: History, frame: seq<Sample>, k: nat)
    requires EmptyBuffer(a) && a.rate == 20 * k && |frame| == 2 * k
    ensures var b := Run(a, h, Warmup(frame)).0;
            Level(b, k, 2) && b.hist == Empty() && b.tms == 12001
  {
    RunMarked(a, h, frame, 1);
    var (b, g) := Run(a, h, Marked(frame, 2 * k, 1));
    RunSecondFrame(b, g, frame, k);
    RunConcat(a, h, Marked(frame, 2 * k, 1), [Play(2 * k)] + Marked(frame, 2 * k, 12001));
  }

  // ---- the burst ----

  /** Five frames come while nothing is played, and then as fast as they are played. */
  predicate IsBurst(played: seq<nat>) {
    |played| >= 7 && forall i :: 0 <= i < |played| ==> played[i] == if i < 5 then 0 else 2
  }

  function AddMarks(hist: seq<nat>, b: nat, n: nat): (h: seq<nat>)
    requires b < |hist|
    ensures |h| == |hist|
  {
    hist[b := hist[b] + n]
  }

  function RisingMarks(hist: seq<nat>): (h: seq<nat>)
    requires |hist| == BUCKETS
    ensures |h| == BUCKETS
  {
    Plus(Plus(Plus(Plus(hist, 2), 3), 4), 5)
  }

  lemma OneMoreFits(u: nat, v: nat, played: seq<nat>)
    requires played != [] && played[0] <= u && v == u - played[0] + 2 <= 59 && Fits(v, played[1..])
    ensures Fits(u, played) && LevelAfter(u, played) == LevelAfter(v, played[1..])
  {
  }

  lemma OneMore(hist: seq<nat>, u: nat, v: nat, played: seq<nat>)
    requires |hist| == BUCKETS && played != []
    requires played[0] <= u && v == u - played[0] + 2 <= 59 && Fits(v, played[1..])
    ensures Fits(u, played) && LevelAfter(u, played) == LevelAfter(v, played[1..])
    ensures MarksAfter(hist, u, played) == MarksAfter(Plus(hist, v / 2), v, played[1..])
  {
    OneMoreFits(u, v, played);
  }

  lemma DurationFrom(played: seq<nat>, i: nat)
    requires i < |played|
    ensures Duration(played[i..]) == Millis(played[i]) + Duration(played[i + 1..])
  {
    assert played[i..][1..] == played[i + 1..];
  }

  lemma {:induction false} SteadyDuration(played: seq<nat>)
    requires forall i :: 0 <= i < |played| ==> played[i] == 2
    ensures Duration(played) == 101 * |played|
  {
    if played == [] {
    } else {
      SteadyDuration(played[1..]);
    }
  }

  lemma BurstDuration(played: seq<nat>)
    requires IsBurst(played)
    ensures Duration(played) == 5 + 101 * (|played| - 5)
  {
    SteadyDuration(played[5..]);
    DurationFrom(played, 4);
    DurationFrom(played, 3);
    DurationFrom(played, 2);
    DurationFrom(played, 1);
    DurationFrom(played, 0);
    assert played[0..] == played;
  }

  /** While frames come as fast as they are played, the level and its mark stay. */
  lemma {:induction false} Steady(hist: seq<nat>, played: seq<nat>)
    requires |hist| == BUCKETS && forall i :: 0 <= i < |played| ==> played[i] == 2
    ensures Fits(12, played) && LevelAfter(12, played) == 12
    ensures MarksAfter(hist, 12, played) == AddMarks(hist, 6, |played|)
    decreases |played|
  {
    if played == [] {
    } else {
      Steady(Plus(hist, 6), played[1..]);
      OneMore(hist, 12, 12, played);
    }
  }

  lemma ToTheTop(hist: seq<nat>, played: seq<nat>)
    requires |hist| == BUCKETS && played != []
    requires forall i :: 0 <= i < |played| ==> played[i] == if i == 0 then 0 else 2
    ensures Fits(10, played) && LevelAfter(10, played) == 12
    ensures MarksAfter(hist, 10, played) == AddMarks(hist, 6, |played|)
  {
    Steady(Plus(hist, 6), played[1..]);
    OneMore(hist, 10, 12, played);
  }

  lemma Rising(hist: seq<nat>, played: seq<nat>)
    requires |hist| == BUCKETS && IsBurst(played) && Fits(10, played[4..])
    ensures Fits(2, played) && LevelAfter(2, played) == LevelAfter(10, played[4..])
    ensures MarksAfter(hist, 2, played) == MarksAfter(RisingMarks(hist), 10, played[4..])
  {
    var h2 := Plus(hist, 2);
    var h3 := Plus(h2, 3);
    assert played[3..][1..] == played[4..] && played[2..][1..] == played[3..] && played[1..][1..] == played[2..];
    OneMore(Plus(h3, 4), 8, 10, played[3..]);
    OneMore(h3, 6, 8, played[2..]);
    OneMore(h2, 4, 6, played[1..]);
    OneMore(hist, 2, 4, played);
  }

  /** From 0.1 s it goes up to 0.6 s, with a mark at each tenth on the way and all others there. */
  lemma BurstMarks(hist: seq<nat>, played: seq<nat>)
    requires |hist| == BUCKETS && IsBurst(played)
    ensures Fits(2, played) && LevelAfter(2, played) == 12
    ensures MarksAfter(hist, 2, played) == AddMarks(RisingMarks(hist), 6, |played| - 4)
  {
    ToTheTop(RisingMarks(hist), played[4..]);
    Rising(hist, played);
  }

  lemma SixIsFullest(hist: seq<nat>, h: seq<nat>, n: nat)
    requires |hist| == BUCKETS && (forall b :: 0 <= b < BUCKETS ==> hist[b] == 0) && h == RisingMarks(hist) && n >= 3
    ensures var marks := Plus(AddMarks(h, 6, n), 3);
            && marks[2] > 0 && marks[6] == n
            && (forall b :: 0 <= b < 2 ==> marks[b] == 0)
            && forall b :: 0 <= b < BUCKETS && b != 6 ==> marks[b] < 3
  {
  }

  /** With one more mark at 0.35 s the first bucket is at 0.2 s and the fullest at 0.6 s. */
  lemma BurstFigures(hist: seq<nat>, played: seq<nat>)
    requires |hist| == BUCKETS && IsBurst(played) && forall b :: 0 <= b < BUCKETS ==> hist[b] == 0
    requires Fits(2, played)
    ensures var marks := Plus(MarksAfter(hist, 2, played), 3);
            ZeroPrefix(marks, BUCKETS) == 2 && Peak(marks, BUCKETS) == 6
  {
    BurstMarks(hist, played);
    SixIsFullest(hist, RisingMarks(hist), |played| - 4);
    FiguresOf(Plus(MarksAfter(hist, 2, played), 3), 2, 6);
  }

  // ---- the broken promise ----

  /** The burst after the warmup, then no frame until 0.25 s are left, and one more. */
  function FramesRun(frame: seq<Sample>, k: nat, played: seq<nat>): seq<Op>
    requires Fits(2, played)
  {
    (Warmup(frame) + Ticks(frame, k, 2, played, 12001)) + ([Play(7 * k)] + [Append(frame)])
  }

  lemma BurstRuns(a: Audio, h: History, k: nat, frame: seq<Sample>, played: seq<nat>)
    requires EmptyBuffer(a) && a.rate == 20 * k && |frame| == 2 * k && IsBurst(played)
    requires Fits(2, played) && LevelAfter(2, played) == 12 && Duration(played) < GATE_MS
    ensures forall op :: op in Warmup(frame) + Ticks(frame, k, 2, played, 12001) ==> Callable(op)
    ensures var c := Run(a, h, Warmup(frame) + Ticks(frame, k, 2, played, 12001)).0;
            Level(c, k, 12) && c.hist == MarksAfter(Empty(), 2, played) && c.tms == 12001
  {
    TicksCallable(frame, k, 2, played, 12001);
    RunWarmup(a, h, frame, k);
    var (b, g) := Run(a, h, Warmup(frame));
    RunTicks(b, g, frame, k, 2, played, 12001);
    RunConcat(a, h, Warmup(frame), Ticks(frame, k, 2, played, 12001));
  }

  lemma LastFrame(a: Audio, k: nat, frame: seq<Sample>, now: int)
    requires Level(a, k, 12) && |frame| == 2 * k && a.tms == 12001 && now >= 24001
    requires ZeroPrefix(Plus(a.hist, 3), BUCKETS) == 2 && Peak(Plus(a.hist, 3), BUCKETS) == 6
    ensures var b := Step(Step(a, Play(7 * k)), Append(frame));
            && |b.queue| == 7 * k && b.rate == 20 * k
            && Step(b, Shrink(7 * k, now)).queue == b.queue[2 * k..]
  {
    LevelBucket(k, 7);
    Just300MsCanDrop(k, 7 * k);
  }

  /**
   The last frame leaves 0.35 s buffered, and its mark, of exactly those 0.35 s, drops 0.1 s of
   them once the gate is open. So it is at every rate that is a multiple of twenty.
   */
  lemma RunDropsUnder600Ms(a: Audio, h: History, k: nat, frame: seq<Sample>, played: seq<nat>, now: int)
    requires EmptyBuffer(a) && a.rate == 20 * k && |frame| == 2 * k && now >= 24001
    requires IsBurst(played) && Duration(played) < GATE_MS
    ensures Fits(2, played) && forall op :: op in FramesRun(frame, k, played) ==> Callable(op)
    ensures var b := Run(a, h, FramesRun(frame, k, played)).0;
            && |b.queue| == 7 * k && 10 * |b.queue| < 6 * b.rate
            && Step(b, Shrink(|b.queue|, now)).queue == b.queue[2 * k..]
  {
    BurstMarks(Empty(), played);
    BurstRuns(a, h, k, frame, played);
    var ops := Warmup(frame) + Ticks(frame, k, 2, played, 12001);
    var (c, g) := Run(a, h, ops);
    BurstFigures(Empty(), played);
    RunConcat(a, h, ops, [Play(7 * k)] + [Append(frame)]);
    RunTwo(c, g, Play(7 * k), Append(frame));
    LastFrame(c, k, frame, now);
  }

  /**
   In particular for a new buffer, at 48 kHz stereo, with 120 frames that last until shortly
   before the gate opens: 33600 samples, of which 9600 are dropped.
   */
  lemma NewBufferDropsUnder600Ms(a: Audio, h: History, frame: seq<Sample>) returns (played: seq<nat>)
    requires a == Initial() && |frame| == 9600
    ensures Fits(2, played) && forall op :: op in FramesRun(frame, 4800, played) ==> Callable(op)
    ensures IsBurst(played) && |played| == 120 && Duration(played) == 11620
    ensures var b := Run(a, h, FramesRun(frame, 4800, played)).0;
            && |b.queue| == 33600 && 10 * |b.queue| < 6 * 96000
            && Step(b, Shrink(33600, 24001)).queue == b.queue[9600..]
  {
    played := ABurst(120);
    BurstDuration(played);
    RunDropsUnder600Ms(a, h, 4800, frame, played, 24001);
  }

  lemma ABurst(n: nat) returns (played: seq<nat>)
    requires n >= 7
    ensures IsBurst(played) && |played| == n
  {
    played := seq(n, i => if i < 5 then 0 else 2);
  }
}

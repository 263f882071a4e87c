/** How much an evaluation of the water marks may drop, and when it drops anything. */
module AudioDrops {
  import opened SampleRing
  import opened AudioSpec

  // ---- arithmetic of the drop ----

  lemma DivFloor(x: nat, d: nat, q: nat)
    requires d > 0
    ensures q <= x / d <==> q * d <= x
  {
    assert x == d * (x / d) + x % d;
    if q <= x / d {
      Scale(q, x / d, d);
    } else {
      Scale(x / d + 1, q, d);
    }
  }

  lemma Scale(x: nat, y: nat, k: nat)
    requires x <= y
    ensures x * k <= y * k
  {
  }

  lemma ShareMonotone(cap: nat, low: nat, high: nat)
    requires low <= high
    ensures Share(cap, low) <= Share(cap, high)
  {
    Scale(low, high, cap);
  }

  /** What is wanted lies between the share of the level and one more. */
  lemma WantedIsShare(cap: nat, z: nat, p: nat)
    ensures p < 6 ==> Wanted(cap, z, p) == 0
    ensures p >= 6 ==> Share(cap, Level(z, p)) <= Wanted(cap, z, p) <= Share(cap, Level(z, p)) + 1
    ensures z <= 1 ==> Wanted(cap, z, p) == 0
  {
    if z <= 1 {
      assert Level(z, p) == 0;
      assert Share(cap, 0) == 0;
    }
  }

  lemma LevelBound(rate: nat, zero: nat, level: nat)
    requires level <= zero * 4
    ensures 10 * Share(3 * rate, level) <= zero * rate
  {
    Scale(level, zero * 4, rate);
    assert 3 * rate * level == 3 * (level * rate);
  }

  /** Never more than two thirds of the empty prefix, in tenths of a second, and one. */
  lemma WantedBound(rate: nat, z: nat, p: nat)
    ensures 30 * (Wanted(3 * rate, z, p) - 1) <= 2 * (z * rate)
  {
    var zero := z * 2 / 3;
    WantedIsShare(3 * rate, z, p);
    LevelBound(rate, zero, Level(z, p));
    TwoThirds(z, zero, rate);
    Combine(Wanted(3 * rate, z, p), Share(3 * rate, Level(z, p)), zero * rate, z * rate);
  }

  lemma TwoThirds(z: nat, zero: nat, rate: nat)
    requires 3 * zero <= 2 * z
    ensures 3 * (zero * rate) <= 2 * (z * rate)
  {
    Scale(3 * zero, 2 * z, rate);
  }

  lemma Combine(skip: nat, share: nat, x: nat, y: nat)
    requires skip <= share + 1 && 10 * share <= x && 3 * x <= 2 * y
    ensures 30 * (skip - 1) <= 2 * y
  {
  }

  // ---- the marks behind the figures ----

  lemma {:induction false} CountedMark(marks: seq<Mark>, k: nat)
    requires k < |marks| && marks[k].rate > 0
    ensures CountIn(marks, Bucket(marks[k].having, marks[k].rate)) > 0
    decreases |marks|
  {
    if k == |marks| - 1 {
    } else {
      CountedMark(marks[..|marks| - 1], k);
    }
  }

  lemma {:induction false} SomeMark(marks: seq<Mark>, b: nat) returns (m: Mark)
    requires CountIn(marks, b) > 0
    ensures m in marks && m.rate > 0 && Bucket(m.having, m.rate) == b
    decreases |marks|
  {
    var last := marks[|marks| - 1];
    if last.rate > 0 && Bucket(last.having, last.rate) == b {
      m := last;
    } else {
      m := SomeMark(marks[..|marks| - 1], b);
    }
  }

  /** The histogram counts the marks. */
  ghost predicate Counts(hist: seq<nat>, marks: seq<Mark>) {
    |hist| == BUCKETS && forall b :: 0 <= b < BUCKETS ==> hist[b] == CountIn(marks, b)
  }

  /** A recorded mark is at least as high as the empty prefix of the histogram. */
  lemma MarkAboveZeroPrefix(marks: seq<Mark>, hist: seq<nat>, m: Mark)
    requires Counts(hist, marks) && m in marks && m.rate > 0
    ensures ZeroPrefix(hist, BUCKETS) * m.rate <= 10 * m.having
    ensures ZeroPrefix(hist, BUCKETS) < BUCKETS
  {
    var k :| 0 <= k < |marks| && marks[k] == m;
    CountedMark(marks, k);
    ZeroPrefixMeaning(hist, BUCKETS);
    var z := ZeroPrefix(hist, BUCKETS);
    assert hist[Bucket(m.having, m.rate)] > 0;
    DivFloor(m.having * 10, m.rate, z);
  }

  /** At most two thirds of a mark, measured in seconds, and one. */
  ghost predicate BelowMark(skip: nat, rate: nat, m: Mark) {
    && 3 * (skip - 1) * m.rate <= 2 * m.having * rate
    && (m.rate == rate ==> 3 * (skip - 1) <= 2 * m.having)
  }

  lemma ScaleBound(skip: nat, z: nat, rate: nat, m: Mark)
    requires rate > 0
    requires skip == 0 || 30 * (skip - 1) <= 2 * (z * rate)
    requires z * m.rate <= 10 * m.having
    ensures BelowMark(skip, rate, m)
  {
    if skip == 0 {
    } else {
      var s := skip - 1;
      Scale(30 * s, 2 * (z * rate), m.rate);
      Scale(z * m.rate, 10 * m.having, rate);
      CrossMultiply(s, z, rate, m);
    }
  }

  lemma CrossMultiply(s: nat, z: nat, rate: nat, m: Mark)
    requires rate > 0
    requires (30 * s) * m.rate <= (2 * (z * rate)) * m.rate
    requires (z * m.rate) * rate <= (10 * m.having) * rate
    ensures 3 * s * m.rate <= 2 * m.having * rate
    ensures m.rate == rate ==> 3 * s <= 2 * m.having
  {
    var x, y := s * m.rate, m.having * rate;
    assert 30 * x <= 20 * y by {
      assert (2 * (z * rate)) * m.rate == 2 * ((z * m.rate) * rate);
    }
    if m.rate == rate && 3 * s > 2 * m.having {
      Scale(2 * m.having + 1, 3 * s, rate);
    }
  }

  /** The peak bucket is 6 or more only if some mark was at least 0.6 s. */
  lemma LowMarksLowPeak(marks: seq<Mark>, hist: seq<nat>)
    requires Counts(hist, marks)
    requires forall m :: m in marks ==> 10 * m.having < 6 * m.rate
    ensures Peak(hist, BUCKETS) < 6
  {
    var peak := Peak(hist, BUCKETS);
    PeakMeaning(hist, BUCKETS);
    if peak >= 6 {
      var m := SomeMark(marks, peak);
      DivFloor(m.having * 10, m.rate, 6);
      assert false;
    }
  }

  // ---- safety of an evaluation ----

  lemma EvaluationBelowMark(a: Audio, marks: seq<Mark>, having: nat, m: Mark)
    requires WellFormed(a) && Counts(Recorded(a, having), marks) && m in marks && m.rate > 0
    ensures BelowMark(Evaluation(a, having), a.rate, m)
    ensures 5 * m.having < m.rate ==> Evaluation(a, having) == 0
  {
    var hist := Recorded(a, having);
    var z, p := ZeroPrefix(hist, BUCKETS), Peak(hist, BUCKETS);
    MarkAboveZeroPrefix(marks, hist, m);
    WantedBound(a.rate, z, p);
    WantedIsShare(a.cap, z, p);
    ScaleBound(Evaluation(a, having), z, a.rate, m);
    if z >= 2 {
      Scale(2, z, m.rate);
    }
  }

  lemma EvaluationNeedsHighMark(a: Audio, marks: seq<Mark>, having: nat)
    requires WellFormed(a) && Counts(Recorded(a, having), marks)
    requires forall m :: m in marks ==> 10 * m.having < 6 * m.rate
    ensures Evaluation(a, having) == 0
  {
    LowMarksLowPeak(marks, Recorded(a, having));
  }

  /** The marks an evaluation goes by: those since the last one, and the new one. */
  function MarksWith(h: History, a: Audio, having: nat): seq<Mark> {
    h.marks + [Mark(having, a.rate)]
  }

  lemma EvaluationCounts(a: Audio, h: History, having: nat)
    requires WellFormed(a) && Statistics(a, h)
    ensures Counts(Recorded(a, having), MarksWith(h, a, having))
    ensures forall m :: m in MarksWith(h, a, having) ==> m.rate > 0
  {
    StepStatistics(a, h, Shrink(having, 0));
  }

  /**
   When the gate opens, what is dropped is even, less than a third of what is buffered and, up
   to one sample, at most two thirds of every water mark recorded since the last evaluation
   (measured in seconds, so also when the format changed in between). Nothing is dropped if
   some mark was under 0.2 s, or if every mark was under 0.6 s.
   */
  lemma EvaluationIsSafe(a: Audio, h: History, having: nat, now: int)
    requires Inv(a, h) && GateOpen(a, now)
    ensures var a' := Step(a, Shrink(having, now));
            var skip := |a.queue| - |a'.queue|;
            var marks := MarksWith(h, a, having);
            && a' == a.(queue := a.queue[skip..], hist := Empty(), tms := now)
            && skip % 2 == 0
            && (skip > 0 ==> 3 * skip < |a.queue|)
            && (forall m :: m in marks ==> BelowMark(skip, a.rate, m))
            && (forall m :: m in marks && 5 * m.having < m.rate ==> skip == 0)
            && ((forall m :: m in marks ==> 10 * m.having < 6 * m.rate) ==> skip == 0)
  {
    var marks := MarksWith(h, a, having);
    EvaluationCounts(a, h, having);
    forall m | m in marks
      ensures BelowMark(Evaluation(a, having), a.rate, m)
      ensures 5 * m.having < m.rate ==> Evaluation(a, having) == 0
    {
      EvaluationBelowMark(a, marks, having, m);
    }
    if forall m :: m in marks ==> 10 * m.having < 6 * m.rate {
      EvaluationNeedsHighMark(a, marks, having);
    }
  }

  // ---- the promise not to drop below 600 ms ----

  /** Whether some buffer of less than 0.6 s would lose samples to these figures. */
  ghost predicate DropsUnder600Ms(rate: nat, z: nat, p: nat) {
    exists n: nat :: 10 * n < 6 * rate && Dropped(n, Wanted(3 * rate, z, p)) > 0
  }

  /** Only level 8 comes so close to 0.6 s that rounding decides. */
  predicate RoundsUnder(rate: nat) {
    10 * (3 * ClearLowBit(rate / 5 + 1) + 1) < 6 * rate
  }

  lemma DropsUnderMeans(rate: nat, z: nat, p: nat)
    ensures var skip := Wanted(3 * rate, z, p);
            DropsUnder600Ms(rate, z, p) <==> skip > 0 && 10 * (3 * skip + 1) < 6 * rate
  {
    var skip := Wanted(3 * rate, z, p);
    if skip > 0 && 10 * (3 * skip + 1) < 6 * rate {
      assert Dropped(3 * skip + 1, skip) > 0;
    }
  }

  lemma SharesOfLevels(rate: nat)
    ensures Share(3 * rate, 4) == rate / 10
    ensures 40 * Share(3 * rate, 7) <= 7 * rate
    ensures Share(3 * rate, 8) == rate / 5
    ensures 40 * Share(3 * rate, 9) + 40 > 9 * rate
  {
  }

  /**
   The exact condition, for every rate from 70 samples per second: the fullest bucket is at
   0.6 s or later, the two lowest are empty, and the level they give is at most 7, or is 8
   where rounding leaves room.
   */
  lemma DropsUnderIff(rate: nat, z: nat, p: nat)
    requires rate >= 70
    ensures DropsUnder600Ms(rate, z, p) <==>
            p >= 6 && z >= 2 && (Level(z, p) <= 7 || (Level(z, p) == 8 && RoundsUnder(rate)))
  {
    var cap := 3 * rate;
    DropsUnderMeans(rate, z, p);
    WantedIsShare(cap, z, p);
    SharesOfLevels(rate);
    if p >= 6 && z >= 2 {
      var l := Level(z, p);
      assert l >= 4;
      ShareMonotone(cap, 4, l);
      if l <= 7 {
        ShareMonotone(cap, l, 7);
      } else if l == 8 {
        assert Wanted(cap, z, p) == ClearLowBit(rate / 5 + 1);
      } else {
        ShareMonotone(cap, 9, l);
      }
    }
  }

  /** For the rates in use, all of them multiples of five, the condition needs only the two figures. */
  lemma UsualRatesDropUnderIff(rate: nat, z: nat, p: nat)
    requires rate >= 70 && rate % 5 == 0
    ensures DropsUnder600Ms(rate, z, p) <==> p >= 6 && z >= 2 && (z == 2 || p <= 7)
  {
    DropsUnderIff(rate, z, p);
    assert !RoundsUnder(rate);
    assert z >= 2 && p >= 6 ==> (Level(z, p) <= 7 <==> z == 2 || p <= 7);
  }

  /**
   The same of an evaluation. It goes by the mark of what the append left buffered, of which the
   device can only have taken some since: so there also has to have been more than three times
   what is wanted.
   */
  lemma PromiseBrokenIff(a: Audio, having: nat)
    requires WellFormed(a) && a.rate >= 70 && a.rate % 5 == 0
    ensures var hist := Recorded(a, having);
            var z, p := ZeroPrefix(hist, BUCKETS), Peak(hist, BUCKETS);
            (exists queue: seq<Sample> ::
               |queue| <= having && 10 * |queue| < 6 * a.rate && Evaluation(a.(queue := queue), having) > 0)
            <==> p >= 6 && z >= 2 && (z == 2 || p <= 7) && having > 3 * Wanted(3 * a.rate, z, p)
  {
    var hist := Recorded(a, having);
    var z, p := ZeroPrefix(hist, BUCKETS), Peak(hist, BUCKETS);
    var skip := Wanted(3 * a.rate, z, p);
    UsualRatesDropUnderIff(a.rate, z, p);
    DropsUnderMeans(a.rate, z, p);
    if DropsUnder600Ms(a.rate, z, p) && having > 3 * skip {
      var queue := seq(3 * skip + 1, _ => SILENCE);
      assert Evaluation(a.(queue := queue), having) == Dropped(3 * skip + 1, skip);
    }
    forall queue: seq<Sample> |
      |queue| <= having && 10 * |queue| < 6 * a.rate && Evaluation(a.(queue := queue), having) > 0
      ensures DropsUnder600Ms(a.rate, z, p) && having > 3 * skip
    {
      assert Dropped(|queue|, skip) > 0;
    }
  }

  /** What does hold without looking at the marks: up to 0.3 s nothing is dropped. */
  lemma NothingDroppedUpTo300Ms(a: Audio, having: nat)
    requires WellFormed(a) && |a.queue| <= 3 * (a.rate / 10)
    ensures Evaluation(a, having) == 0
  {
    var hist := Recorded(a, having);
    var z, p := ZeroPrefix(hist, BUCKETS), Peak(hist, BUCKETS);
    WantedIsShare(a.cap, z, p);
    SharesOfLevels(a.rate);
    if p >= 6 && z >= 2 {
      ShareMonotone(a.cap, 4, Level(z, p));
    }
  }

  /** And 0.3 s is the best such bound: one sample more is enough for some marks. */
  lemma Just300MsCanDrop(k: nat, n: nat)
    requires k > 0 && n > 6 * k
    ensures Dropped(n, Wanted(3 * (20 * k), 2, 6)) == 2 * k
  {
    SharesOfLevels(20 * k);
    assert Level(2, 6) == 4;
    assert Wanted(3 * (20 * k), 2, 6) == ClearLowBit(2 * k + 1);
  }

  // ---- runs that record marks ----

  /** Append and record the mark right after, while no evaluation is due. */
  function Marked(pcm: seq<Sample>, having: nat, now: int): seq<Op> {
    [Append(pcm)] + [Shrink(having, now)]
  }

  lemma RunOne(a: Audio, h: History, op: Op)
    requires Runnable(a) && Callable(op)
    ensures Run(a, h, [op]) == (Step(a, op), Track(h, a, op))
  {
    assert [op][1..] == [];
  }

  lemma RunTwo(a: Audio, h: History, op1: Op, op2: Op)
    requires Runnable(a) && Callable(op1) && Callable(op2)
    ensures var a1, h1 := Step(a, op1), Track(h, a, op1);
            Run(a, h, [op1] + [op2]) == (Step(a1, op2), Track(h1, a1, op2))
  {
    RunConcat(a, h, [op1], [op2]);
    RunOne(a, h, op1);
    RunOne(Step(a, op1), Track(h, a, op1), op2);
  }

  lemma RunThree(a: Audio, h: History, ops1: seq<Op>, ops2: seq<Op>, ops3: seq<Op>)
    requires Runnable(a) && forall op :: op in (ops1 + ops2) + ops3 ==> Callable(op)
    ensures (forall op :: op in ops1 ==> Callable(op)) && (forall op :: op in ops2 ==> Callable(op))
    ensures forall op :: op in ops3 ==> Callable(op)
    ensures var (a1, h1) := Run(a, h, ops1);
            var (a2, h2) := Run(a1, h1, ops2);
            Run(a, h, (ops1 + ops2) + ops3) == Run(a2, h2, ops3)
  {
    RunConcat(a, h, ops1 + ops2, ops3);
    RunConcat(a, h, ops1, ops2);
  }

  /** What an append and its mark do to a buffer with room, while no evaluation is due. */
  ghost predicate MarkStep(a: Audio, h: History, pcm: seq<Sample>, now: int, a': Audio, h': History)
    requires Runnable(a)
  {
    && a' == a.(queue := a.queue + pcm, hist := Recorded(a, |a.queue| + |pcm|),
                tms := if a.tms == 0 then now else a.tms)
    && h'.appended == h.appended + pcm && Front(h') == Front(h)
  }

  lemma RunMarked(a: Audio, h: History, pcm: seq<Sample>, now: int)
    requires WellFormed(a) && |a.queue| + |pcm| <= a.cap
    requires !GateOpen(a, now)
    ensures var (a', h') := Run(a, h, Marked(pcm, |a.queue| + |pcm|, now));
            MarkStep(a, h, pcm, now, a', h') && WellFormed(a')
  {
    RunTwo(a, h, Append(pcm), Shrink(|a.queue| + |pcm|, now));
  }

  lemma BucketIs(having: nat, rate: nat, b: nat)
    requires rate > 0 && b <= 29
    requires b * rate <= 10 * having && (b < 29 ==> 10 * having < (b + 1) * rate)
    ensures Bucket(having, rate) == b
  {
    DivFloor(having * 10, rate, b);
    DivFloor(having * 10, rate, b + 1);
  }

  /** The figures of a histogram whose first mark is in bucket z and most marks in bucket p. */
  lemma FiguresOf(hist: seq<nat>, z: nat, p: nat)
    requires |hist| == BUCKETS && z < p < BUCKETS && hist[z] > 0
    requires forall k :: 0 <= k < z ==> hist[k] == 0
    requires forall k :: 0 <= k < BUCKETS && k != p ==> hist[k] < hist[p]
    ensures ZeroPrefix(hist, BUCKETS) == z && Peak(hist, BUCKETS) == p
  {
    ZeroPrefixMeaning(hist, BUCKETS);
    PeakMeaning(hist, BUCKETS);
  }
}

/**
 What the jitter buffer does, as a state machine over what can happen to it: the decoder
 appends samples, the decoder reports a water mark, the device plays samples, the output format
 changes, and another buffer evaluates its marks, the time of the last evaluation being common
 to all. The first two are separate steps because the lock is released between them, so the
 device may play in between.
 */
module AudioSpec {
  import opened SampleRing

  const BUCKETS := 30
  const GATE_MS := 12000

  /** rate is samples per second over all channels; tms is the time of the last evaluation, 0 if none. */
  datatype Audio = Audio(cap: nat, rate: nat, queue: seq<Sample>, hist: seq<nat>, tms: int)

  datatype Op =
    | Append(pcm: seq<Sample>)
    | Shrink(having: nat, now: int)
    | Play(count: nat)
    | Resize(sampleRate: nat, channels: nat)
    | EvaluatedElsewhere(now: int)

  ghost predicate WellFormed(a: Audio) {
    && a.rate > 0
    && a.cap == 3 * a.rate
    && |a.queue| <= a.cap
    && |a.hist| == BUCKETS
  }

  /** 3000 ms of samples. */
  function Capacity(rate: nat): (cap: nat)
    ensures cap == 3 * rate
  {
    rate * 3000 / 1000
  }

  /** What a step needs: a rate to divide by, and all the buckets. */
  predicate Runnable(a: Audio) {
    a.rate > 0 && |a.hist| == BUCKETS
  }

  predicate Callable(op: Op) {
    op.Resize? ==> op.sampleRate > 0 && op.channels > 0
  }

  /** 48 kHz, two channels. */
  function Initial(): Audio {
    Audio(Capacity(48000 * 2), 48000 * 2, [], Empty(), 0)
  }

  function Empty(): (h: seq<nat>)
    ensures |h| == BUCKETS && forall b :: 0 <= b < BUCKETS ==> h[b] == 0
  {
    seq(BUCKETS, _ => 0)
  }

  // ---- the water-mark histogram ----

  /** Tenths of a second of audio, the last bucket taking everything from 2.9 s up. */
  function Bucket(having: nat, rate: nat): (b: nat)
    requires rate > 0
    ensures b < BUCKETS
  {
    var i := having * 10 / rate;
    if i > 29 then 29 else i
  }

  /** How many of the first n buckets are empty before the first one that is not. */
  function ZeroPrefix(h: seq<nat>, n: nat): (z: nat)
    requires n <= |h|
    ensures z <= n
  {
    if n == 0 then 0
    else
      var z := ZeroPrefix(h, n - 1);
      if z == n - 1 && h[n - 1] == 0 then n else z
  }

  /** The fullest of the buckets 1 to n - 1, the first of them on a tie, and 0 if all are empty. */
  function Peak(h: seq<nat>, n: nat): (p: nat)
    requires n <= |h|
    ensures p == 0 || p < n
  {
    if n <= 1 then 0
    else
      var p := Peak(h, n - 1);
      if h[n - 1] > (if p == 0 then 0 else h[p]) then n - 1 else p
  }

  /** The bucket the drop is based on: the peak, capped by four times two thirds of the empty prefix. */
  function Level(zeroPrefix: nat, peak: nat): (level: nat)
    ensures level <= zeroPrefix * 2 / 3 * 4
  {
    var zero := zeroPrefix * 2 / 3;
    if peak > zero * 4 then zero * 4 else peak
  }

  /** A quarter bucket of the capacity for each unit of the level. */
  function Share(cap: nat, level: nat): nat {
    cap * level / 120
  }

  /** How many samples the statistics ask to drop, always even. */
  function Wanted(cap: nat, zeroPrefix: nat, peak: nat): (skip: nat)
    ensures skip % 2 == 0
    ensures skip <= Share(cap, Level(zeroPrefix, peak)) + 1
  {
    if peak < 6 then 0 else ClearLowBit(Share(cap, Level(zeroPrefix, peak)) + 1)
  }

  function ClearLowBit(v: nat): (r: nat)
    ensures r % 2 == 0 && r <= v <= r + 1
  {
    v - v % 2
  }

  /** How many are dropped: what is wanted, if more than three times as much is buffered. */
  function Dropped(buffered: nat, skip: nat): (d: nat)
    ensures d <= buffered
  {
    if buffered > skip * 3 && skip > 0 then skip else 0
  }

  predicate GateOpen(a: Audio, now: int) {
    a.tms != 0 && now >= a.tms + GATE_MS
  }

  function Recorded(a: Audio, having: nat): (h: seq<nat>)
    requires Runnable(a)
    ensures |h| == BUCKETS
  {
    var b := Bucket(having, a.rate);
    a.hist[b := a.hist[b] + 1]
  }

  function Evaluation(a: Audio, having: nat): (d: nat)
    requires Runnable(a)
    ensures d <= |a.queue|
  {
    var h := Recorded(a, having);
    Dropped(|a.queue|, Wanted(a.cap, ZeroPrefix(h, BUCKETS), Peak(h, BUCKETS)))
  }

  // ---- the steps ----

  function Step(a: Audio, op: Op): (a': Audio)
    requires Runnable(a) && Callable(op)
    ensures Runnable(a')
  {
    match op
    case Append(pcm) => a.(queue := LastN(a.queue + pcm, a.cap))
    case Play(count) => a.(queue := a.queue[Min(count, |a.queue|)..])
    case Resize(sampleRate, channels) =>
      var cap := Capacity(sampleRate * channels);
      if cap == a.cap then a else a.(cap := cap, rate := sampleRate * channels, queue := [])
    case Shrink(having, now) =>
      if GateOpen(a, now) then
        a.(hist := Empty(), tms := now, queue := a.queue[Evaluation(a, having)..])
      else
        a.(hist := Recorded(a, having), tms := if a.tms == 0 then now else a.tms)
    case EvaluatedElsewhere(now) => a.(tms := now)
  }

  // ---- meaning of the two histogram figures ----

  /** The zero figure is the length of the all-zero prefix. */
  lemma {:induction false} ZeroPrefixMeaning(h: seq<nat>, n: nat)
    requires n <= |h|
    ensures forall k :: 0 <= k < ZeroPrefix(h, n) ==> h[k] == 0
    ensures ZeroPrefix(h, n) < n ==> h[ZeroPrefix(h, n)] != 0
  {
    if n == 0 {
    } else {
      ZeroPrefixMeaning(h, n - 1);
    }
  }

  /** The peak figure is the first fullest bucket among 1..n-1; bucket 0 never wins. */
  lemma {:induction false} PeakMeaning(h: seq<nat>, n: nat)
    requires n <= |h|
    ensures var p := Peak(h, n);
            && (p == 0 <==> forall k :: 1 <= k < n ==> h[k] == 0)
            && (forall k :: p > 0 && 1 <= k < n ==> h[k] <= h[p])
            && (forall k :: 1 <= k < p ==> h[k] < h[p])
  {
    if n <= 1 {
    } else {
      PeakMeaning(h, n - 1);
    }
  }

  // ---- the history of a run ----

  datatype Mark = Mark(having: nat, rate: nat)

  /**
   What happened so far: every sample appended, how many left the buffer and why, the stream
   offsets and values of the samples the device was given, and the water marks recorded since
   the last evaluation with the rate they were recorded at.
   */
  datatype History = History(appended: seq<Sample>, popped: nat, dropped: nat,
                             heard: seq<Sample>, heardAt: seq<nat>, marks: seq<Mark>)

  function Front(h: History): nat { h.popped + h.dropped }

  function Track(h: History, a: Audio, op: Op): History
    requires Runnable(a) && Callable(op)
  {
    var a' := Step(a, op);
    match op
    case Append(pcm) =>
      h.(appended := h.appended + pcm, dropped := h.dropped + (|a.queue| + |pcm| - |a'.queue|))
    case Play(count) =>
      var n := Min(count, |a.queue|);
      h.(popped := h.popped + n,
         heard := h.heard + a.queue[..n],
         heardAt := h.heardAt + seq(n, (i: nat) => Front(h) + i))
    case Resize(_, _) => h.(dropped := h.dropped + (|a.queue| - |a'.queue|))
    case Shrink(having, now) =>
      h.(dropped := h.dropped + (|a.queue| - |a'.queue|),
         marks := if GateOpen(a, now) then [] else h.marks + [Mark(having, a.rate)])
    case EvaluatedElsewhere(_) => h
  }

  function CountIn(marks: seq<Mark>, b: nat): nat {
    if marks == [] then 0
    else
      var m := marks[|marks| - 1];
      CountIn(marks[..|marks| - 1], b) + (if m.rate > 0 && Bucket(m.having, m.rate) == b then 1 else 0)
  }

  /** The buffer holds exactly the rest of the stream after what was played or dropped. */
  ghost predicate Fifo(a: Audio, h: History) {
    && Front(h) + |a.queue| == |h.appended|
    && a.queue == h.appended[Front(h)..]
  }

  /** The k-th sample the device heard is the stream's sample at the offset kept for it. */
  predicate HeardRight(h: History, k: nat) {
    k < |h.heard| && k < |h.heardAt| && h.heardAt[k] < |h.appended| && h.heard[k] == h.appended[h.heardAt[k]]
  }

  /** The device hears stream samples in stream order, none twice. */
  ghost predicate InOrder(h: History) {
    && |h.heard| == |h.heardAt| == h.popped
    && (forall k :: 0 <= k < h.popped ==> HeardRight(h, k))
    && (forall k :: 0 <= k < |h.heardAt| ==> h.heardAt[k] < Front(h))
    && (forall j, k :: 0 <= j < k < |h.heardAt| ==> h.heardAt[j] < h.heardAt[k])
  }

  ghost predicate Statistics(a: Audio, h: History) {
    && (forall b :: 0 <= b < |a.hist| ==> a.hist[b] == CountIn(h.marks, b))
    && (forall m :: m in h.marks ==> m.rate > 0)
  }

  ghost predicate Inv(a: Audio, h: History) {
    WellFormed(a) && Fifo(a, h) && InOrder(h) && Statistics(a, h)
  }

  function Run(a: Audio, h: History, ops: seq<Op>): (r: (Audio, History))
    requires Runnable(a) && forall op :: op in ops ==> Callable(op)
    ensures Runnable(r.0)
    decreases |ops|
  {
    if ops == [] then (a, h) else Run(Step(a, ops[0]), Track(h, a, ops[0]), ops[1..])
  }

  /** Capacity stays three seconds of samples and is never exceeded. */
  lemma StepWellFormed(a: Audio, op: Op)
    requires WellFormed(a) && Callable(op)
    ensures WellFormed(Step(a, op))
  {
  }

  lemma StepFifo(a: Audio, h: History, op: Op)
    requires WellFormed(a) && Callable(op) && Fifo(a, h)
    ensures Fifo(Step(a, op), Track(h, a, op))
  {
  }

  lemma StepInOrder(a: Audio, h: History, op: Op)
    requires WellFormed(a) && Callable(op) && Fifo(a, h) && InOrder(h)
    ensures InOrder(Track(h, a, op))
  {
    var h' := Track(h, a, op);
    forall k | 0 <= k < h'.popped
      ensures HeardRight(h', k)
    {
      if k < h.popped {
        assert HeardRight(h, k);
      } else {
        assert h'.heard[k] == a.queue[k - h.popped];
      }
    }
  }

  lemma StepStatistics(a: Audio, h: History, op: Op)
    requires WellFormed(a) && Callable(op) && Statistics(a, h)
    ensures Statistics(Step(a, op), Track(h, a, op))
    ensures op.Shrink? ==> forall b :: 0 <= b < BUCKETS ==>
              Recorded(a, op.having)[b] == CountIn(h.marks + [Mark(op.having, a.rate)], b)
  {
  }

  /** Every reachable state: FIFO, conservation, order of play, and honest statistics. */
  lemma {:induction false} RunKeepsInv(a: Audio, h: History, ops: seq<Op>)
    requires Inv(a, h) && forall op :: op in ops ==> Callable(op)
    ensures var (a', h') := Run(a, h, ops); Inv(a', h')
    decreases |ops|
  {
    if ops == [] {
    } else {
      StepWellFormed(a, ops[0]);
      StepFifo(a, h, ops[0]);
      StepInOrder(a, h, ops[0]);
      StepStatistics(a, h, ops[0]);
      RunKeepsInv(Step(a, ops[0]), Track(h, a, ops[0]), ops[1..]);
    }
  }

  /** A run in two parts. */
  lemma {:induction false} RunConcat(a: Audio, h: History, first: seq<Op>, second: seq<Op>)
    requires Runnable(a) && forall op :: op in first + second ==> Callable(op)
    ensures (forall op :: op in first ==> Callable(op)) && (forall op :: op in second ==> Callable(op))
    ensures Run(a, h, first + second) == Run(Run(a, h, first).0, Run(a, h, first).1, second)
    decreases |first|
  {
    assert forall op :: op in first ==> op in first + second;
    assert forall op :: op in second ==> op in first + second;
    if first == [] {
      assert first + second == second;
    } else {
      assert (first + second)[1..] == first[1..] + second;
      RunConcat(Step(a, first[0]), Track(h, a, first[0]), first[1..], second);
    }
  }

  /** An empty buffer of any format. */
  ghost predicate EmptyBuffer(a: Audio) {
    WellFormed(a) && a.queue == [] && a.hist == Empty() && a.tms == 0
  }

  /** Nothing has been appended yet. */
  predicate NothingStreamed(h: History) {
    |h.appended| == h.popped == h.dropped == 0
  }

  /** Nothing has happened yet. */
  predicate Unused(h: History) {
    NothingStreamed(h) && |h.heard| == |h.heardAt| == |h.marks| == 0
  }

  /** A new buffer is empty, and so is it after its format is set. */
  lemma NewBuffer(sampleRate: nat, channels: nat)
    requires sampleRate * channels > 0
    ensures EmptyBuffer(Initial())
    ensures Callable(Resize(sampleRate, channels)) ==>
              EmptyBuffer(Step(Initial(), Resize(sampleRate, channels))) &&
              Step(Initial(), Resize(sampleRate, channels)).rate == sampleRate * channels
  {
  }

  lemma EmptyInv(a: Audio, h: History)
    requires EmptyBuffer(a) && Unused(h)
    ensures Inv(a, h)
  {
    EmptyInOrder(h);
  }

  /** Every state a run reaches from an empty buffer satisfies the invariant. */
  lemma ReachableInv(a: Audio, h: History, ops: seq<Op>)
    requires EmptyBuffer(a) && Unused(h) && forall op :: op in ops ==> Callable(op)
    ensures Inv(Run(a, h, ops).0, Run(a, h, ops).1)
  {
    EmptyInv(a, h);
    RunKeepsInv(a, h, ops);
  }

  lemma EmptyInOrder(h: History)
    requires |h.heard| == |h.heardAt| == h.popped == 0
    ensures InOrder(h)
  {
  }
}

/** An interval that swallows ticks coming too soon after the last one it passed on. */
module Throttle {
  import opened Wrappers

  /** One poll: whether the underlying interval ticked, for which instant, and the time of the poll. */
  datatype Poll = Poll(base: Option<int>, now: int)

  class ThrottledInterval {
    var nextTick: int
    const minInterval: nat

    constructor (minInterval: nat, now: int)
      ensures this.minInterval == minInterval && nextTick == now
    {
      this.minInterval, nextTick := minInterval, now;
    }

    method PollTick(p: Poll) returns (ready: Option<int>)
      modifies this
      ensures ready == if Passes(old(nextTick), p) then p.base else None
      ensures nextTick == After(old(nextTick), minInterval, p)
    {
      match p.base
      case None => ready := None;
      case Some(instant) =>
        if nextTick <= p.now {
          nextTick := p.now + minInterval;
          ready := Some(instant);
        } else {
          ready := None;
        }
    }
  }

  predicate Passes(nextTick: int, p: Poll) {
    p.base.Some? && nextTick <= p.now
  }

  function After(nextTick: int, minInterval: nat, p: Poll): int {
    if Passes(nextTick, p) then p.now + minInterval else nextTick
  }

  /** The times at which a run of polls was ready. */
  function ReadyTimes(nextTick: int, minInterval: nat, polls: seq<Poll>): seq<int>
    decreases |polls|
  {
    if polls == [] then []
    else
      (if Passes(nextTick, polls[0]) then [polls[0].now] else []) +
      ReadyTimes(After(nextTick, minInterval, polls[0]), minInterval, polls[1..])
  }

  /** The times at which the underlying interval ticked. */
  function TickTimes(polls: seq<Poll>): seq<int> {
    if polls == [] then [] else (if polls[0].base.Some? then [polls[0].now] else []) + TickTimes(polls[1..])
  }

  predicate Monotone(polls: seq<Poll>) {
    forall i, j :: 0 <= i < j < |polls| ==> polls[i].now <= polls[j].now
  }

  predicate Spaced(times: seq<int>, gap: nat) {
    forall i :: 0 <= i < |times| - 1 ==> times[i + 1] - times[i] >= gap
  }

  /** Ready ticks are at least the minimal interval apart, the first not before its due time. */
  lemma {:induction false} ReadyIsSpaced(nextTick: int, gap: nat, polls: seq<Poll>)
    requires Monotone(polls)
    ensures var times := ReadyTimes(nextTick, gap, polls);
            Spaced(times, gap) && (times != [] ==> nextTick <= times[0])
    decreases |polls|
  {
    if polls == [] {
    } else {
      ReadyIsSpaced(After(nextTick, gap, polls[0]), gap, polls[1..]);
      var rest := ReadyTimes(After(nextTick, gap, polls[0]), gap, polls[1..]);
      var times := ReadyTimes(nextTick, gap, polls);
      if Passes(nextTick, polls[0]) {
        forall i | 0 <= i < |times| - 1
          ensures times[i + 1] - times[i] >= gap
        {
          assert times[i + 1] == rest[i];
          if i > 0 {
            assert times[i] == rest[i - 1];
          }
        }
      } else {
        assert times == rest;
      }
    }
  }

  lemma {:induction false} SpacedApart(times: seq<int>, gap: nat, i: nat, j: nat)
    requires Spaced(times, gap) && i <= j < |times|
    ensures times[j] - times[i] >= (j - i) * gap
    decreases j - i
  {
    if i == j {
    } else {
      SpacedApart(times, gap, i, j - 1);
      assert times[(j - 1) + 1] - times[j - 1] >= gap;
      assert (j - i) * gap == (j - 1 - i) * gap + gap;
    }
  }

  /** A window of any length holds at most length / gap + 1 ready ticks. */
  lemma WindowBound(nextTick: int, gap: nat, polls: seq<Poll>, start: int, length: nat, i: nat, j: nat)
    requires Monotone(polls) && gap > 0
    requires var times := ReadyTimes(nextTick, gap, polls);
             i <= j < |times| && start <= times[i] && times[j] <= start + length
    ensures j - i + 1 <= length / gap + 1
  {
    var times := ReadyTimes(nextTick, gap, polls);
    ReadyIsSpaced(nextTick, gap, polls);
    SpacedApart(times, gap, i, j);
    QuotientBound(j - i, gap, length);
  }

  lemma QuotientBound(n: nat, gap: nat, length: nat)
    requires gap > 0 && n * gap <= length
    ensures n <= length / gap
  {
    var q := length / gap;
    assert length < (q + 1) * gap;
    if n > q {
      Product(n - (q + 1), gap);
    }
  }

  lemma Product(extra: nat, gap: nat)
    ensures extra * gap >= 0
  {
  }

  /** Ticks that are far enough apart, the first one due, all pass. */
  lemma {:induction false} SlowTicksPass(nextTick: int, gap: nat, polls: seq<Poll>)
    requires Spaced(TickTimes(polls), gap)
    requires TickTimes(polls) != [] ==> nextTick <= TickTimes(polls)[0]
    ensures ReadyTimes(nextTick, gap, polls) == TickTimes(polls)
    decreases |polls|
  {
    if polls == [] {
    } else {
      var ticks, rest := TickTimes(polls), TickTimes(polls[1..]);
      if polls[0].base.Some? {
        assert ticks[1..] == rest;
        forall i | 0 <= i < |rest| - 1
          ensures rest[i + 1] - rest[i] >= gap
        {
          assert rest[i] == ticks[i + 1] && rest[i + 1] == ticks[(i + 1) + 1];
        }
        if rest != [] {
          assert ticks[0 + 1] - ticks[0] >= gap;
        }
      } else {
        assert ticks == rest;
      }
      SlowTicksPass(After(nextTick, gap, polls[0]), gap, polls[1..]);
    }
  }

  lemma {:induction false} ReadyTimesConcat(nextTick: int, gap: nat, polls: seq<Poll>, p: Poll)
    ensures var r := ReadyTimes(nextTick, gap, polls);
            var due := if r == [] then nextTick else r[|r| - 1] + gap;
            ReadyTimes(nextTick, gap, polls + [p]) == r + if p.base.Some? && due <= p.now then [p.now] else []
    decreases |polls|
  {
    if polls == [] {
      assert (polls + [p])[1..] == [];
    } else {
      assert (polls + [p])[1..] == polls[1..] + [p];
      ReadyTimesConcat(After(nextTick, gap, polls[0]), gap, polls[1..], p);
    }
  }

  /**
   No starving: after any polls, a tick passes exactly if it comes at the last ready time and the
   interval or later, or at the first due time or later when none was ready yet.
   */
  lemma TickPassesIff(nextTick: int, gap: nat, polls: seq<Poll>, p: Poll)
    ensures var r := ReadyTimes(nextTick, gap, polls);
            && (ReadyTimes(nextTick, gap, polls + [p]) == r + [p.now] <==>
                  p.base.Some? && (if r == [] then nextTick else r[|r| - 1] + gap) <= p.now)
            && (ReadyTimes(nextTick, gap, polls + [p]) == r + [p.now] || ReadyTimes(nextTick, gap, polls + [p]) == r)
  {
    ReadyTimesConcat(nextTick, gap, polls, p);
    var r := ReadyTimes(nextTick, gap, polls);
    assert |r + [p.now]| == |r| + 1 && r + [] == r;
  }
}

/**
 Counting decode failures, and withdrawing a codec the peer should stop sending: one handler
 and one thread per display, one shared list of formats marked as unsupported.
 */
module VideoDecode {
  import opened Wrappers

  const MAX_DECODE_FAIL_COUNTER := 3
  const USIZE_MAX := 0xFFFF_FFFF_FFFF_FFFF

  type Format = nat

  /** The outcome of one frame: decoded, decoded to nothing, or an error. */
  datatype Outcome = Decoded | NotShown | Failed

  predicate Good(o: Outcome) { o.Decoded? }

  // ---- the counter as a function of what happened since the last reset ----

  function Trailing(history: seq<Outcome>): nat {
    if history == [] || Good(history[|history| - 1]) then 0
    else 1 + Trailing(history[..|history| - 1])
  }

  predicate AllBad(history: seq<Outcome>) {
    forall k :: 0 <= k < |history| ==> !Good(history[k])
  }

  function Capped(n: nat): nat {
    if n < USIZE_MAX then n else USIZE_MAX
  }

  /** Failing from the very first frame counts two extra. */
  function FailCount(history: seq<Outcome>): nat {
    if history != [] && AllBad(history) then Capped(2 + |history|) else Capped(Trailing(history))
  }

  /** What one more frame does to the count. */
  lemma FailCountStep(history: seq<Outcome>, o: Outcome)
    ensures var n := FailCount(history);
            FailCount(history + [o]) ==
            if Good(o) then 0
            else if history == [] then 3
            else if n < 0xFFFF_FFFF_FFFF_FFFF then n + 1
            else n
    ensures FailCount(history) <= 0xFFFF_FFFF_FFFF_FFFF
  {
    var next := history + [o];
    assert next[..|history|] == history;
    if Good(o) {
      assert Good(next[|history|]);
    } else if AllBad(history) {
      assert AllBad(next);
    } else {
      var k :| 0 <= k < |history| && Good(history[k]);
      assert Good(next[k]);
    }
  }

  /** Nothing has failed before the first frame. */
  lemma NoFailureYet()
    ensures FailCount([]) == 0
  {
  }

  /** Enough failures to give up: the first frame already failed, or the last three did. */
  lemma GiveUpMeaning(history: seq<Outcome>)
    ensures FailCount(history) >= MAX_DECODE_FAIL_COUNTER <==>
            (history != [] && AllBad(history)) || Trailing(history) >= 3
  {
  }

  // ---- one handler ----

  class VideoHandler {
    var format: Format
    var failCounter: nat
    var firstFrame: bool
    ghost var history: seq<Outcome>

    ghost predicate Valid()
      reads this
    {
      failCounter == FailCount(history) && (firstFrame <==> history == [])
    }

    constructor (format: Format)
      ensures Valid() && this.format == format && history == []
    {
      this.format, failCounter, firstFrame, history := format, 0, true, [];
    }

    method Reset(newFormat: Option<Format>)
      modifies this
      ensures Valid() && history == []
      ensures format == if newFormat.Some? then newFormat.value else old(format)
    {
      if newFormat.Some? {
        format := newFormat.value;
      }
      failCounter, firstFrame, history := 0, true, [];
    }

    /** A frame of another format starts over; a frame without data changes nothing else. */
    method HandleFrame(frameFormat: Format, outcome: Option<Outcome>)
      requires Valid()
      modifies this
      ensures Valid()
      ensures Handler(format, history) == AfterFrame(Some(Handler(old(format), old(history))), frameFormat, outcome)
    {
      if frameFormat != format {
        Reset(Some(frameFormat));
      }
      if outcome.Some? {
        FailCountStep(history, outcome.value);
        if Good(outcome.value) {
          failCounter := 0;
        } else if failCounter < USIZE_MAX {
          if firstFrame && failCounter < MAX_DECODE_FAIL_COUNTER {
            failCounter := MAX_DECODE_FAIL_COUNTER;
          } else {
            failCounter := failCounter + 1;
          }
        }
        firstFrame := false;
        history := history + [outcome.value];
      }
    }
  }

  /** The part of the session that all video threads share. */
  class SharedMarks {
    var marks: seq<Format>

    constructor ()
      ensures marks == []
    {
      marks := [];
    }

    /** After a frame: withdraw the format if the decoder is unusable; says whether to announce it. */
    method CheckDecoder(h: VideoHandler, valid: bool) returns (shouldUpdate: bool)
      requires h.Valid()
      modifies this
      ensures shouldUpdate <==> (!valid || FailCount(h.history) >= MAX_DECODE_FAIL_COUNTER) && h.format !in old(marks)
      ensures marks == if shouldUpdate then old(marks) + [h.format] else old(marks)
    {
      shouldUpdate := false;
      if !valid || h.failCounter >= MAX_DECODE_FAIL_COUNTER {
        if h.format !in marks {
          marks := marks + [h.format];
          shouldUpdate := true;
        }
      }
    }
  }

  // ---- the threads of all displays ----

  /** A display's handler, once it has one, and whether its thread still has to announce the marks. */
  datatype Thread = Thread(handler: Option<Handler>, pending: bool)

  datatype Handler = Handler(format: Format, history: seq<Outcome>)

  /** The shared marks and the updates sent, each carrying the marks of the moment. */
  datatype World = World(threads: map<nat, Thread>, marks: seq<Format>, sent: seq<seq<Format>>)

  datatype Step =
    | Frame(display: nat, format: Format, outcome: Option<Outcome>, valid: bool)
    | ResetDecoder(display: nat)
    | Announce(display: nat)

  function ThreadOf(w: World, display: nat): Thread {
    if display in w.threads then w.threads[display] else Thread(None, false)
  }

  /** A thread announces before it takes its next frame. */
  predicate Enabled(w: World, step: Step) {
    ThreadOf(w, step.display).pending <==> step.Announce?
  }

  function AfterFrame(h: Option<Handler>, format: Format, outcome: Option<Outcome>): Handler {
    Handler(format, (if h.Some? && h.value.format == format then h.value.history else []) +
                    (if outcome.Some? then [outcome.value] else []))
  }

  function Next(w: World, step: Step): World
    requires Enabled(w, step)
  {
    var t := ThreadOf(w, step.display);
    match step
    case Frame(d, format, outcome, valid) =>
      var h := AfterFrame(t.handler, format, outcome);
      if (!valid || FailCount(h.history) >= MAX_DECODE_FAIL_COUNTER) && h.format !in w.marks then
        World(w.threads[d := Thread(Some(h), true)], w.marks + [h.format], w.sent)
      else
        w.(threads := w.threads[d := Thread(Some(h), false)])
    case ResetDecoder(d) =>
      if t.handler.Some? then w.(threads := w.threads[d := Thread(Some(t.handler.value.(history := [])), false)]) else w
    case Announce(d) =>
      w.(threads := w.threads[d := t.(pending := false)], sent := w.sent + [w.marks])
  }

  function Waiting(w: World): set<nat> {
    set d | d in w.threads && w.threads[d].pending
  }

  /** Each mark is announced once: sent, or still waiting in the thread that made it. */
  ghost predicate Inv(w: World) {
    && (forall i, j :: 0 <= i < j < |w.marks| ==> w.marks[i] != w.marks[j])
    && |w.sent| + |Waiting(w)| == |w.marks|
    && (forall k :: 0 <= k < |w.sent| ==> w.sent[k] <= w.marks)
    && (Waiting(w) == {} && w.sent != [] ==> w.sent[|w.sent| - 1] == w.marks)
  }

  lemma NothingMarkedYet()
    ensures Inv(World(map[], [], []))
  {
  }

  lemma FrameKeepsInv(w: World, frame: Step)
    requires frame.Frame? && Inv(w) && Enabled(w, frame)
    ensures Inv(Next(w, frame)) && w.marks <= Next(w, frame).marks
  {
    var w' := Next(w, frame);
    if w'.marks == w.marks {
      assert Waiting(w') == Waiting(w);
    } else {
      assert Waiting(w') == Waiting(w) + {frame.display};
      assert frame.display !in Waiting(w);
    }
  }

  lemma AnnounceKeepsInv(w: World, announce: Step)
    requires announce.Announce? && Inv(w) && Enabled(w, announce)
    ensures Inv(Next(w, announce)) && w.marks <= Next(w, announce).marks
  {
    assert announce.display in Waiting(w);
    assert Waiting(Next(w, announce)) == Waiting(w) - {announce.display};
  }

  lemma StepKeepsInv(w: World, step: Step)
    requires Inv(w) && Enabled(w, step)
    ensures Inv(Next(w, step))
    ensures w.marks <= Next(w, step).marks
  {
    match step
    case Frame(_, _, _, _) => FrameKeepsInv(w, step);
    case ResetDecoder(_) => assert Waiting(Next(w, step)) == Waiting(w);
    case Announce(_) => AnnounceKeepsInv(w, step);
  }

  ghost predicate AllEnabled(w: World, steps: seq<Step>)
    decreases |steps|
  {
    steps != [] ==> Enabled(w, steps[0]) && AllEnabled(Next(w, steps[0]), steps[1..])
  }

  ghost function Run(w: World, steps: seq<Step>): World
    requires AllEnabled(w, steps)
    decreases |steps|
  {
    if steps == [] then w else Run(Next(w, steps[0]), steps[1..])
  }

  /** A run goes step by step. */
  lemma {:induction false} OneMoreStep(w: World, steps: seq<Step>, step: Step)
    requires AllEnabled(w, steps) && Enabled(Run(w, steps), step)
    ensures Run(w, []) == w && AllEnabled(w, steps + [step])
    ensures Run(w, steps + [step]) == Next(Run(w, steps), step)
    decreases |steps|
  {
    if steps == [] {
      assert (steps + [step])[1..] == [];
    } else {
      assert (steps + [step])[1..] == steps[1..] + [step];
      OneMoreStep(Next(w, steps[0]), steps[1..], step);
    }
  }

  /**
   However the threads interleave: marks are never lost or doubled, there is exactly one update
   per mark, and once every thread has announced, the last update carries all the marks.
   */
  lemma {:induction false} MarksAnnouncedOnce(w: World, steps: seq<Step>)
    requires Inv(w) && AllEnabled(w, steps)
    ensures var w' := Run(w, steps);
            && w.marks <= w'.marks
            && (forall i, j :: 0 <= i < j < |w'.marks| ==> w'.marks[i] != w'.marks[j])
            && |w'.sent| + |Waiting(w')| == |w'.marks|
            && (forall k :: 0 <= k < |w'.sent| ==> w'.sent[k] <= w'.marks)
            && (Waiting(w') == {} && w'.sent != [] ==> w'.sent[|w'.sent| - 1] == w'.marks)
    decreases |steps|
  {
    if steps == [] {
    } else {
      StepKeepsInv(w, steps[0]);
      MarksAnnouncedOnce(Next(w, steps[0]), steps[1..]);
    }
  }

  /** A frame marks a format exactly if the decoder is invalid or has failed enough, and it is not marked yet. */
  lemma MarkedMeaning(w: World, d: nat, format: Format, outcome: Option<Outcome>, valid: bool)
    requires Enabled(w, Frame(d, format, outcome, valid))
    ensures var history := AfterFrame(ThreadOf(w, d).handler, format, outcome).history;
            format in Next(w, Frame(d, format, outcome, valid)).marks <==>
            format in w.marks || !valid || (history != [] && AllBad(history)) || Trailing(history) >= 3
  {
    var h := AfterFrame(ThreadOf(w, d).handler, format, outcome);
    GiveUpMeaning(h.history);
    assert h.format == format;
  }

  /**
   A frame of another format, and a thread's first, forgets what was before; a frame without data
   adds nothing.
   */
  lemma FormatChangeForgets(h: Handler, format: Format, outcome: Option<Outcome>)
    ensures var h' := AfterFrame(Some(h), format, outcome);
            && h'.format == format
            && (if outcome.Some? then
                  && |h'.history| > 0 && h'.history[|h'.history| - 1] == outcome.value
                  && h'.history[..|h'.history| - 1] == (if h.format == format then h.history else [])
                else h'.history == (if h.format == format then h.history else []))
    ensures var first := AfterFrame(None, format, outcome);
            first == Handler(format, if outcome.Some? then [outcome.value] else [])
  {
  }

  /** What a step does to its own thread: only a frame that marks makes it announce. */
  lemma OwnThread(w: World, step: Step)
    requires Enabled(w, step)
    ensures var d, w' := step.display, Next(w, step);
            && (forall e :: e != d ==> ThreadOf(w', e) == ThreadOf(w, e))
            && (step.Frame? ==>
                  && ThreadOf(w', d).handler == Some(AfterFrame(ThreadOf(w, d).handler, step.format, step.outcome))
                  && (ThreadOf(w', d).pending <==> w'.marks != w.marks) && w'.sent == w.sent)
            && (step.ResetDecoder? ==>
                  && w'.marks == w.marks && w'.sent == w.sent && !ThreadOf(w', d).pending
                  && (ThreadOf(w', d).handler.Some? <==> ThreadOf(w, d).handler.Some?)
                  && (ThreadOf(w, d).handler.Some? ==>
                        ThreadOf(w', d).handler.value == Handler(ThreadOf(w, d).handler.value.format, [])))
            && (step.Announce? ==>
                  && w'.marks == w.marks && w'.sent == w.sent + [w.marks]
                  && ThreadOf(w', d) == ThreadOf(w, d).(pending := false))
  {
  }
}

/**
 When the two clipboards agree. With one side copying, at rest the other holds its contents
 exactly if the newest message was the last to be applied. With both sides copying, they agree
 as long as a side copies only when the other's copy has been looked at and has arrived; without
 that, a copy that still stands at rest is shared, but copies that cross can swap.
 */
module ClipboardAgreement {
  import opened Wrappers
  import opened ClipboardProto
  import opened ClipboardSync

  function Decoded(s: Setup, message: seq<Clipboard>): seq<Data> {
    FromMultiClipboards(s.codec, message)
  }

  /** What the other machine makes of this clipboard. */
  ghost function Transmitted(s: Setup, board: seq<Data>): seq<Data> {
    Decoded(s, CreateMultiClipboards(s.codec, Shared(board, s.unixFiles, false)))
  }

  /** What is transmitted is what was shared, exactly if every item survives the wire. */
  lemma TransmittedIsShared(s: Setup, board: seq<Data>)
    requires Lawful(s.codec)
    ensures var data := Shared(board, s.unixFiles, false);
            Transmitted(s, board) == data <==> forall d :: d in data ==> Faithful(s.codec, d)
  {
    var data := Shared(board, s.unixFiles, false);
    RoundTrip(s.codec, data);
    KeptAll(data);
  }

  /** Something arrives exactly if something is sent. */
  lemma TransmittedNotEmpty(s: Setup, board: seq<Data>)
    requires Lawful(s.codec)
    ensures Transmitted(s, board) == [] <==> Shared(board, s.unixFiles, false) == []
  {
    var data := Shared(board, s.unixFiles, false);
    RoundTrip(s.codec, data);
    KeptAll(data);
  }

  lemma {:induction false} KeptAll(items: seq<Data>)
    requires forall d :: d in items ==> Sent(d)
    ensures Kept(items) == items
  {
    if items == [] {
    } else {
      assert items[0] in items;
      KeptAll(items[1..]);
    }
  }

  /** Every message waiting has contents. */
  ghost predicate Meaningful(s: Setup, inbox: seq<seq<Clipboard>>) {
    forall k :: 0 <= k < |inbox| ==> Decoded(s, inbox[k]) != []
  }

  /** A received message with contents is written, and the tag with it. */
  ghost predicate Applied(s: Setup, q: Peer, side: Side, k: nat, q': Peer)
    requires k < |q.inbox|
  {
    && q'.inbox == q.inbox[..k] + q.inbox[k + 1..]
    && q'.board == Decoded(s, q.inbox[k]) + [OwnerTag(side)]
    && Tagged(q'.board)
    && Meaningful(s, q'.inbox)
  }

  lemma DeliverApplies(s: Setup, w: World, side: Side, k: nat, raised: nat)
    requires Enabled(s, w, Deliver(side, k, true, raised)) && Meaningful(s, At(w, side).inbox)
    ensures Applied(s, At(w, side), side, k, At(Next(s, w, Deliver(side, k, true, raised)), side))
  {
    var q' := At(Next(s, w, Deliver(side, k, true, raised)), side);
    assert q'.board[|q'.board| - 1] == OwnerTag(side);
    assert IsOwnerTag(OwnerTag(side));
  }

  /** A check either finds nothing to share or puts its contents last in the other inbox. */
  ghost predicate Looked(s: Setup, p: Peer, q: Peer, p': Peer, q': Peer) {
    && p' == p.(events := p'.events) && p'.events + 1 == p.events
    && q' == q.(inbox := q'.inbox)
    && (if Transmitted(s, p.board) == [] then q'.inbox == q.inbox
        else |q'.inbox| == |q.inbox| + 1 && q'.inbox[..|q.inbox|] == q.inbox
             && Decoded(s, q'.inbox[|q.inbox|]) == Transmitted(s, p.board))
    && (Meaningful(s, q.inbox) ==> Meaningful(s, q'.inbox))
  }

  lemma CheckLooks(s: Setup, w: World, side: Side)
    requires Lawful(s.codec) && Enabled(s, w, Check(side, true, true))
    ensures var w' := Next(s, w, Check(side, true, true));
            && Looked(s, At(w, side), At(w, Opposite(side)), At(w', side), At(w', Opposite(side)))
            && (Tagged(At(w, side).board) ==> Transmitted(s, At(w, side).board) == [])
  {
    TransmittedNotEmpty(s, At(w, side).board);
    if Tagged(At(w, side).board) {
      TaggedReadsNothing(At(w, side).board, s.unixFiles);
    }
  }

  // ---- one side copies ----

  /** Only one side copies, every copy raises an event, and nothing fails. */
  ghost predicate OneSided(step: Step, source: Side) {
    match step
    case Copy(side, content, raised) => side == source && raised > 0 && !Tagged(content)
    case Check(_, readOk, wanted) => readOk && wanted
    case Deliver(_, _, setOk, _) => setOk
  }

  /** The newest contents the receiver has or will have. */
  ghost predicate Latest(s: Setup, p: Peer, side: Side, data: seq<Data>) {
    if p.inbox == [] then p.board == data + [OwnerTag(side)]
    else Decoded(s, p.inbox[|p.inbox| - 1]) == data
  }

  ghost predicate Sides(s: Setup, w: World, source: Side) {
    var p, q := At(w, source), At(w, Opposite(source));
    && p.inbox == []
    && (p.events > 0 ==> !Tagged(p.board))
    && (q.events > 0 ==> Tagged(q.board))
    && Meaningful(s, q.inbox)
  }

  /** The source will still look at its clipboard, or has nothing to share. */
  ghost predicate NothingDue(s: Setup, w: World, source: Side) {
    At(w, source).events > 0 || Transmitted(s, At(w, source).board) == []
  }

  ghost predicate InSync(s: Setup, w: World, source: Side) {
    && Sides(s, w, source)
    && (NothingDue(s, w, source)
        || Latest(s, At(w, Opposite(source)), Opposite(source), Transmitted(s, At(w, source).board)))
  }

  /** Applying message k leaves the newest one for last, or one with the same contents. */
  predicate NewestForLast(s: Setup, inbox: seq<seq<Clipboard>>, k: nat)
    requires k < |inbox|
  {
    || |inbox| == 1
    || k < |inbox| - 1
    || Decoded(s, inbox[|inbox| - 2]) == Decoded(s, inbox[|inbox| - 1])
  }

  ghost predicate InOrder(s: Setup, w: World, source: Side, step: Step)
    requires Enabled(s, w, step)
  {
    step.Deliver? && step.side != source && !NothingDue(s, w, source) ==>
      NewestForLast(s, At(w, step.side).inbox, step.k)
  }

  lemma StepKeepsSides(s: Setup, w: World, source: Side, step: Step)
    requires Lawful(s.codec) && Enabled(s, w, step) && OneSided(step, source) && Sides(s, w, source)
    ensures Sides(s, Next(s, w, step), source)
  {
    match step
    case Copy(_, _, _) =>
    case Check(side, _, _) => CheckLooks(s, w, side);
    case Deliver(side, k, _, raised) => DeliverApplies(s, w, side, k, raised);
  }

  lemma CheckKeepsInSync(s: Setup, w: World, source: Side, side: Side)
    requires Lawful(s.codec) && Enabled(s, w, Check(side, true, true)) && InSync(s, w, source)
    ensures InSync(s, Next(s, w, Check(side, true, true)), source)
  {
    StepKeepsSides(s, w, source, Check(side, true, true));
    CheckLooks(s, w, side);
    var w' := Next(s, w, Check(side, true, true));
    var p, q, q' := At(w, source), At(w, Opposite(source)), At(w', Opposite(source));
    if side != source {
      assert q'.inbox == q.inbox && q'.board == q.board && At(w', source) == p;
    } else if Transmitted(s, p.board) != [] {
      assert Latest(s, q', Opposite(source), Transmitted(s, p.board));
    }
  }

  lemma NewestStays(s: Setup, q: Peer, side: Side, k: nat, q': Peer, data: seq<Data>)
    requires k < |q.inbox| && Applied(s, q, side, k, q') && Latest(s, q, side, data)
    ensures Latest(s, q', side, data) <==> NewestForLast(s, q.inbox, k)
  {
    if |q.inbox| > 1 {
      var last := q'.inbox[|q'.inbox| - 1];
      assert last == if k < |q.inbox| - 1 then q.inbox[|q.inbox| - 1] else q.inbox[|q.inbox| - 2];
    } else {
      assert q'.inbox == [];
    }
  }

  lemma DeliverKeepsInSyncIff(s: Setup, w: World, source: Side, k: nat, raised: nat)
    requires Enabled(s, w, Deliver(Opposite(source), k, true, raised)) && InSync(s, w, source) && Lawful(s.codec)
    ensures InSync(s, Next(s, w, Deliver(Opposite(source), k, true, raised)), source)
            <==> InOrder(s, w, source, Deliver(Opposite(source), k, true, raised))
  {
    var side := Opposite(source);
    StepKeepsSides(s, w, source, Deliver(side, k, true, raised));
    DeliverApplies(s, w, side, k, raised);
    if !NothingDue(s, w, source) {
      var q' := At(Next(s, w, Deliver(side, k, true, raised)), side);
      NewestStays(s, At(w, side), side, k, q', Transmitted(s, At(w, source).board));
    }
  }

  /**
   One step keeps the sides in sync, except that a delivery does so exactly if it leaves the
   newest message for last, or one with the same contents.
   */
  lemma StepKeepsInSyncIff(s: Setup, w: World, source: Side, step: Step)
    requires Lawful(s.codec) && Enabled(s, w, step) && OneSided(step, source) && InSync(s, w, source)
    ensures InSync(s, Next(s, w, step), source) <==> InOrder(s, w, source, step)
  {
    match step
    case Copy(_, _, _) => StepKeepsSides(s, w, source, step);
    case Check(side, _, _) => CheckKeepsInSync(s, w, source, side);
    case Deliver(_, k, _, raised) => DeliverKeepsInSyncIff(s, w, source, k, raised);
  }

  /** Whatever the clipboards held before, one copy on a quiet pair starts a run that is in sync. */
  lemma FirstCopyInSync(s: Setup, w: World, source: Side, copy: Step)
    requires Quiescent(w) && copy.Copy? && OneSided(copy, source)
    ensures InSync(s, Next(s, w, copy), source)
  {
  }

  /** Every step can be taken, is one of the source's, and keeps the order. */
  ghost predicate Orderly(s: Setup, w: World, source: Side, steps: seq<Step>)
    decreases |steps|
  {
    steps != [] ==>
      && Enabled(s, w, steps[0]) && OneSided(steps[0], source) && InOrder(s, w, source, steps[0])
      && Orderly(s, Next(s, w, steps[0]), source, steps[1..])
  }

  /** The board holds what the other peer has to share, tagged. */
  ghost predicate Holds(s: Setup, board: seq<Data>, p: Peer, side: Side) {
    board == Transmitted(s, p.board) + [OwnerTag(side)]
  }

  /** The receiver holds what the source has to share. */
  ghost predicate Agree(s: Setup, w: World, source: Side) {
    Holds(s, At(w, Opposite(source)).board, At(w, source), Opposite(source))
  }

  /**
   With one copying side and orderly steps, whenever everything is quiet the other side holds
   exactly what that side last had to share, in order and tagged.
   */
  lemma {:induction false} QuietMeansEqual(s: Setup, w: World, source: Side, steps: seq<Step>)
    requires Lawful(s.codec) && InSync(s, w, source) && Orderly(s, w, source, steps)
    ensures Exec(s, w, steps).Some?
    ensures var w' := Exec(s, w, steps).value;
            && InSync(s, w', source)
            && (Quiescent(w') ==> Transmitted(s, At(w', source).board) == [] || Agree(s, w', source))
    decreases |steps|
  {
    if steps == [] {
    } else {
      StepKeepsInSyncIff(s, w, source, steps[0]);
      QuietMeansEqual(s, Next(s, w, steps[0]), source, steps[1..]);
    }
  }

  // ---- taking turns ----

  /** Who copied last. */
  function CopierAfter(source: Side, step: Step): Side {
    if step.Copy? then step.side else source
  }

  function LastCopier(source: Side, steps: seq<Step>): Side
    decreases |steps|
  {
    if steps == [] then source else LastCopier(CopierAfter(source, steps[0]), steps[1..])
  }

  /** A side may copy: what the other copied has been looked at, and has been applied here. */
  predicate MayTakeOver(w: World, side: Side) {
    At(w, side).inbox == [] && At(w, Opposite(side)).events == 0
  }

  /** A copy is by the last copier or by a side that may take over; deliveries are in order. */
  ghost predicate KeepsTurn(s: Setup, w: World, source: Side, step: Step)
    requires Enabled(s, w, step)
  {
    if step.Copy? then step.side == source || MayTakeOver(w, step.side) else InOrder(s, w, source, step)
  }

  /** The other side's first copy keeps the two in sync exactly if it may take over. */
  lemma TakeOverKeepsInSyncIff(s: Setup, w: World, source: Side, copy: Step)
    requires InSync(s, w, source) && copy.Copy? && OneSided(copy, Opposite(source))
    ensures InSync(s, Next(s, w, copy), Opposite(source)) <==> MayTakeOver(w, Opposite(source))
  {
  }

  /**
   One step of either side keeps the two in sync, with the last copier as the source, exactly if
   it keeps the turn.
   */
  lemma StepKeepsInSyncIffTurn(s: Setup, w: World, source: Side, step: Step)
    requires Lawful(s.codec) && Enabled(s, w, step) && InSync(s, w, source)
    requires OneSided(step, CopierAfter(source, step))
    ensures InSync(s, Next(s, w, step), CopierAfter(source, step)) <==> KeepsTurn(s, w, source, step)
  {
    if step.Copy? && step.side != source {
      TakeOverKeepsInSyncIff(s, w, source, step);
    } else {
      StepKeepsInSyncIff(s, w, source, step);
    }
  }

  /** Every step can be taken, nothing fails, and the sides take turns. */
  ghost predicate InTurns(s: Setup, w: World, source: Side, steps: seq<Step>)
    decreases |steps|
  {
    steps != [] ==>
      && Enabled(s, w, steps[0]) && OneSided(steps[0], CopierAfter(source, steps[0]))
      && KeepsTurn(s, w, source, steps[0])
      && InTurns(s, Next(s, w, steps[0]), CopierAfter(source, steps[0]), steps[1..])
  }

  lemma {:induction false} TurnsKeepInSync(s: Setup, w: World, source: Side, steps: seq<Step>)
    requires Lawful(s.codec) && InSync(s, w, source) && InTurns(s, w, source, steps)
    ensures Exec(s, w, steps).Some? && InSync(s, Exec(s, w, steps).value, LastCopier(source, steps))
    decreases |steps|
  {
    if steps == [] {
    } else {
      StepKeepsInSyncIffTurn(s, w, source, steps[0]);
      TurnsKeepInSync(s, Next(s, w, steps[0]), CopierAfter(source, steps[0]), steps[1..]);
    }
  }

  /**
   Both sides may copy, from a quiet pair on and taking turns: at rest, the other side holds
   what the last copier had to share.
   */
  lemma TurnsAgree(s: Setup, w: World, copy: Step, steps: seq<Step>)
    requires Lawful(s.codec) && Quiescent(w) && copy.Copy? && OneSided(copy, copy.side)
    requires InTurns(s, Next(s, w, copy), copy.side, steps)
    ensures Exec(s, Next(s, w, copy), steps).Some?
    ensures var w', last := Exec(s, Next(s, w, copy), steps).value, LastCopier(copy.side, steps);
            Quiescent(w') ==> Transmitted(s, At(w', last).board) == [] || Agree(s, w', last)
  {
    FirstCopyInSync(s, w, copy.side, copy);
    TurnsKeepInSync(s, Next(s, w, copy), copy.side, steps);
  }

  // ---- deliveries in any order ----

  /** A world with the contents last sent by the source and last applied by the receiver, [] for none. */
  datatype Trace = Trace(world: World, sent: seq<Data>, applied: seq<Data>)

  ghost function Follow(s: Setup, t: Trace, source: Side, step: Step): Trace
    requires Enabled(s, t.world, step)
  {
    var content := Transmitted(s, At(t.world, source).board);
    Trace(
      Next(s, t.world, step),
      if step.Check? && step.side == source && content != [] then content else t.sent,
      if step.Deliver? && step.side != source then Decoded(s, At(t.world, step.side).inbox[step.k]) else t.applied)
  }

  ghost function FollowAll(s: Setup, t: Trace, source: Side, steps: seq<Step>): (r: Option<Trace>)
    ensures Exec(s, t.world, steps) == if r.Some? then Some(r.value.world) else None
    decreases |steps|
  {
    if steps == [] then Some(t)
    else if !Enabled(s, t.world, steps[0]) then None
    else FollowAll(s, Follow(s, t, source, steps[0]), source, steps[1..])
  }

  ghost predicate Told(s: Setup, t: Trace, source: Side) {
    var q := At(t.world, Opposite(source));
    && Sides(s, t.world, source)
    && (NothingDue(s, t.world, source) || t.sent == Transmitted(s, At(t.world, source).board))
    && (t.applied != [] ==> q.board == t.applied + [OwnerTag(Opposite(source))])
    && (t.sent != [] ==> t.applied != [] || q.inbox != [])
  }

  lemma CheckKeepsTold(s: Setup, t: Trace, source: Side, side: Side)
    requires Lawful(s.codec) && Enabled(s, t.world, Check(side, true, true)) && Told(s, t, source)
    ensures Told(s, Follow(s, t, source, Check(side, true, true)), source)
  {
    StepKeepsSides(s, t.world, source, Check(side, true, true));
    CheckLooks(s, t.world, side);
  }

  lemma DeliverKeepsTold(s: Setup, t: Trace, source: Side, deliver: Step)
    requires Lawful(s.codec) && deliver.Deliver? && Enabled(s, t.world, deliver)
    requires OneSided(deliver, source) && Told(s, t, source)
    ensures Told(s, Follow(s, t, source, deliver), source)
  {
    StepKeepsSides(s, t.world, source, deliver);
    DeliverApplies(s, t.world, deliver.side, deliver.k, deliver.raised);
  }

  lemma StepKeepsTold(s: Setup, t: Trace, source: Side, step: Step)
    requires Lawful(s.codec) && Enabled(s, t.world, step) && OneSided(step, source) && Told(s, t, source)
    ensures Told(s, Follow(s, t, source, step), source)
  {
    match step
    case Copy(_, _, _) => StepKeepsSides(s, t.world, source, step);
    case Check(side, _, _) => CheckKeepsTold(s, t, source, side);
    case Deliver(_, _, _, _) => DeliverKeepsTold(s, t, source, step);
  }

  lemma {:induction false} RunKeepsTold(s: Setup, t: Trace, source: Side, steps: seq<Step>)
    requires Lawful(s.codec) && Told(s, t, source) && forall step :: step in steps ==> OneSided(step, source)
    requires FollowAll(s, t, source, steps).Some?
    ensures Told(s, FollowAll(s, t, source, steps).value, source)
    decreases |steps|
  {
    if steps == [] {
    } else {
      StepKeepsTold(s, t, source, steps[0]);
      RunKeepsTold(s, Follow(s, t, source, steps[0]), source, steps[1..]);
    }
  }

  /**
   With one copying side and messages applied in any order: at rest the two agree exactly if
   what was applied last is what was sent last.
   */
  lemma AgreeIffNewestAppliedLast(s: Setup, w: World, source: Side, copy: Step, steps: seq<Step>)
    requires Lawful(s.codec) && Quiescent(w) && copy.Copy? && OneSided(copy, source)
    requires forall step :: step in steps ==> OneSided(step, source)
    requires Exec(s, Next(s, w, copy), steps).Some? && Quiescent(Exec(s, Next(s, w, copy), steps).value)
    ensures var t := FollowAll(s, Trace(Next(s, w, copy), [], []), source, steps).value;
            && t.world == Exec(s, Next(s, w, copy), steps).value
            && (Transmitted(s, At(t.world, source).board) != [] ==>
                  (Agree(s, t.world, source) <==> t.applied == t.sent))
  {
    RunKeepsTold(s, Trace(Next(s, w, copy), [], []), source, steps);
    var t := FollowAll(s, Trace(Next(s, w, copy), [], []), source, steps).value;
    SameBeforeTag(t.applied, t.sent, OwnerTag(Opposite(source)));
  }

  lemma SameBeforeTag(a: seq<Data>, b: seq<Data>, tag: Data)
    ensures a + [tag] == b + [tag] <==> a == b
  {
    if a + [tag] == b + [tag] {
      assert a == (a + [tag])[..|a|];
      assert b == (b + [tag])[..|b|];
    }
  }

  // ---- both sides copy ----

  /** Copies of either side with something to share, nothing fails, and the newest message goes last. */
  ghost predicate TwoSided(s: Setup, w: World, step: Step)
    requires Enabled(s, w, step)
  {
    match step
    case Copy(_, content, raised) => raised > 0 && !Tagged(content) && Transmitted(s, content) != []
    case Check(_, readOk, wanted) => readOk && wanted
    case Deliver(side, k, setOk, _) => setOk && (|At(w, side).inbox| == 1 || k < |At(w, side).inbox| - 1)
  }

  /** The contents of p are still to be looked at, or are the newest message to q. */
  ghost predicate OnTheWay(s: Setup, p: Peer, q: Peer) {
    p.events > 0 || (q.inbox != [] && Decoded(s, q.inbox[|q.inbox| - 1]) == Transmitted(s, p.board))
  }

  /** The other side q has copied since, and that copy is on the way back. */
  ghost predicate Overtaken(s: Setup, p: Peer, q: Peer) {
    q.inbox == [] && !Tagged(q.board) && OnTheWay(s, q, p)
  }

  /** If p's own copy still stands it is on the way to q, has arrived, or has been overtaken. */
  ghost predicate Accounted(s: Setup, p: Peer, q: Peer, side: Side) {
    !Tagged(p.board) ==>
      OnTheWay(s, p, q) || (q.inbox == [] && Holds(s, q.board, p, side)) || Overtaken(s, p, q)
  }

  ghost predicate Sane(s: Setup, p: Peer) {
    && Meaningful(s, p.inbox)
    && (p.events > 0 && !Tagged(p.board) ==> Transmitted(s, p.board) != [])
  }

  ghost predicate BothAccounted(s: Setup, w: World) {
    && Sane(s, w.host) && Sane(s, w.client)
    && Accounted(s, w.host, w.client, Client) && Accounted(s, w.client, w.host, Host)
  }

  /** A copy that has arrived is overtaken by a new one at the other side. */
  lemma CopyAccounts(s: Setup, p: Peer, q: Peer, q': Peer, side: Side)
    requires Accounted(s, p, q, side)
    requires q'.inbox == q.inbox && q'.events > 0 && !Tagged(q'.board)
    ensures Accounted(s, p, q', side) && Accounted(s, q', p, Opposite(side))
  {
  }

  lemma CopyKeepsAccounted(s: Setup, w: World, copy: Step)
    requires copy.Copy? && TwoSided(s, w, copy) && BothAccounted(s, w)
    ensures BothAccounted(s, Next(s, w, copy))
  {
    CopyAccounts(s, At(w, Opposite(copy.side)), At(w, copy.side), At(Next(s, w, copy), copy.side), copy.side);
  }

  /** What a check sends is on the way, and so is what was overtaken by it. */
  lemma CheckAccounts(s: Setup, p: Peer, q: Peer, p': Peer, q': Peer, side: Side)
    requires Looked(s, p, q, p', q') && Sane(s, p) && (Tagged(p.board) ==> Transmitted(s, p.board) == [])
    requires Accounted(s, p, q, Opposite(side)) && Accounted(s, q, p, side)
    ensures Accounted(s, p', q', Opposite(side)) && Accounted(s, q', p', side)
  {
    if Tagged(p.board) {
      assert q' == q;
    } else {
      assert OnTheWay(s, p', q');
      assert q'.board == q.board && p'.inbox == p.inbox && q'.events == q.events;
    }
  }

  lemma CheckKeepsAccounted(s: Setup, w: World, side: Side)
    requires Lawful(s.codec) && Enabled(s, w, Check(side, true, true)) && BothAccounted(s, w)
    ensures BothAccounted(s, Next(s, w, Check(side, true, true)))
  {
    CheckLooks(s, w, side);
    var w' := Next(s, w, Check(side, true, true));
    CheckAccounts(s, At(w, side), At(w, Opposite(side)), At(w', side), At(w', Opposite(side)), side);
  }

  /** The sender's newest message is still waiting, or has arrived. */
  lemma DeliverAccounts(s: Setup, p: Peer, q: Peer, q': Peer, side: Side, k: nat)
    requires k < |q.inbox| && Applied(s, q, side, k, q') && Accounted(s, p, q, side)
    requires |q.inbox| == 1 || k < |q.inbox| - 1
    ensures Accounted(s, p, q', side)
  {
    if !Tagged(p.board) && p.events == 0 {
      NewestStays(s, q, side, k, q', Transmitted(s, p.board));
      assert Latest(s, q', side, Transmitted(s, p.board));
    }
  }

  lemma DeliverKeepsAccounted(s: Setup, w: World, deliver: Step)
    requires deliver.Deliver? && Enabled(s, w, deliver) && TwoSided(s, w, deliver) && BothAccounted(s, w)
    ensures BothAccounted(s, Next(s, w, deliver))
  {
    var side := deliver.side;
    DeliverApplies(s, w, side, deliver.k, deliver.raised);
    DeliverAccounts(s, At(w, Opposite(side)), At(w, side), At(Next(s, w, deliver), side), side, deliver.k);
  }

  ghost predicate AllTwoSided(s: Setup, w: World, steps: seq<Step>)
    decreases |steps|
  {
    steps != [] ==>
      Enabled(s, w, steps[0]) && TwoSided(s, w, steps[0]) && AllTwoSided(s, Next(s, w, steps[0]), steps[1..])
  }

  lemma {:induction false} RunKeepsAccounted(s: Setup, w: World, steps: seq<Step>)
    requires Lawful(s.codec) && BothAccounted(s, w) && AllTwoSided(s, w, steps)
    ensures Exec(s, w, steps).Some? && BothAccounted(s, Exec(s, w, steps).value)
    decreases |steps|
  {
    if steps == [] {
    } else {
      match steps[0] {
        case Copy(_, _, _) => CopyKeepsAccounted(s, w, steps[0]);
        case Check(side, _, _) => CheckKeepsAccounted(s, w, side);
        case Deliver(_, _, _, _) => DeliverKeepsAccounted(s, w, steps[0]);
      }
      RunKeepsAccounted(s, Next(s, w, steps[0]), steps[1..]);
    }
  }

  /** Messages in the order they were sent, copies with something to share, and no failures. */
  ghost predicate Prompt(s: Setup, step: Step) {
    match step
    case Copy(_, content, raised) => raised > 0 && !Tagged(content) && Transmitted(s, content) != []
    case Check(_, readOk, wanted) => readOk && wanted
    case Deliver(_, k, setOk, _) => k == 0 && setOk
  }

  lemma {:induction false} PromptIsTwoSided(s: Setup, w: World, steps: seq<Step>)
    requires Exec(s, w, steps).Some? && forall step :: step in steps ==> Prompt(s, step)
    ensures AllTwoSided(s, w, steps)
    decreases |steps|
  {
    if steps == [] {
    } else {
      assert Prompt(s, steps[0]);
      PromptIsTwoSided(s, Next(s, w, steps[0]), steps[1..]);
    }
  }

  /**
   Both sides may copy at any time: at rest, a copy that still stands is what the other side
   holds. So the two differ only if each was overwritten by the other.
   */
  lemma StandingCopyIsShared(s: Setup, w: World, copy: Step, steps: seq<Step>)
    requires Lawful(s.codec) && Quiescent(w) && copy.Copy? && TwoSided(s, w, copy)
    requires AllTwoSided(s, Next(s, w, copy), steps)
    ensures Exec(s, Next(s, w, copy), steps).Some?
    ensures var w' := Exec(s, Next(s, w, copy), steps).value;
            Quiescent(w') ==> forall side :: !Tagged(At(w', side).board) ==> Agree(s, w', side)
  {
    StartAccounted(s, w, copy);
    RunKeepsAccounted(s, Next(s, w, copy), steps);
  }

  lemma StartAccounted(s: Setup, w: World, copy: Step)
    requires Quiescent(w) && copy.Copy? && TwoSided(s, w, copy)
    ensures BothAccounted(s, Next(s, w, copy))
  {
  }

  // ---- what goes wrong otherwise ----

  lemma TextMessage(s: Setup, text: string)
    requires Lawful(s.codec) && text != ""
    ensures !Tagged([Text(text)]) && Shared([Text(text)], s.unixFiles, false) == [Text(text)]
    ensures Transmitted(s, [Text(text)]) == [Text(text)]
  {
    var board := [Text(text)];
    assert Select(board, s.unixFiles) == board by {
      assert board[1..] == [];
    }
    assert Share(board) == board by {
      assert board[1..] == [];
    }
    ItemRoundTrip(s.codec, Text(text));
    TransmittedIsShared(s, board);
  }

  /** Copy a text and send it off. */
  function CopyAndCheck(side: Side, text: string): seq<Step> {
    [Copy(side, [Text(text)], 1), Check(side, true, true)]
  }

  ghost predicate Sends(s: Setup, w: World, side: Side, text: string, w': World) {
    && At(w', side) == At(w, side).(board := [Text(text)])
    && At(w', Opposite(side)) == At(w, Opposite(side)).(inbox := At(w', Opposite(side)).inbox)
    && At(w', Opposite(side)).inbox == At(w, Opposite(side)).inbox + [CreateMultiClipboards(s.codec, [Text(text)])]
  }

  lemma CopyAndCheckSends(s: Setup, w: World, side: Side, text: string)
    requires Lawful(s.codec) && text != "" && At(w, side).events == 0
    ensures Exec(s, w, CopyAndCheck(side, text)).Some?
    ensures Sends(s, w, side, text, Exec(s, w, CopyAndCheck(side, text)).value)
  {
    TextMessage(s, text);
    var steps := CopyAndCheck(side, text);
    var w1 := Next(s, w, steps[0]);
    assert steps[1..] == [steps[1]] && steps[1..][1..] == [];
    assert Exec(s, w1, steps[1..]) == Some(Next(s, w1, steps[1]));
  }

  lemma {:induction false} ExecConcat(s: Setup, w: World, first: seq<Step>, second: seq<Step>)
    requires Exec(s, w, first).Some?
    ensures Exec(s, w, first + second) == Exec(s, Exec(s, w, first).value, second)
    decreases |first|
  {
    if first == [] {
      assert first + second == second;
    } else {
      assert (first + second)[1..] == first[1..] + second;
      ExecConcat(s, Next(s, w, first[0]), first[1..], second);
    }
  }

  function Deliveries(side1: Side, k1: nat, side2: Side): seq<Step> {
    [Deliver(side1, k1, true, 0), Deliver(side2, 0, true, 0)]
  }

  /** Each delivery writes its text, and no event is raised. */
  lemma DeliveriesWrite(s: Setup, w: World, side1: Side, k1: nat, text1: string, side2: Side, text2: string)
    requires Lawful(s.codec) && text1 != "" && text2 != ""
    requires k1 < |At(w, side1).inbox| && At(w, side1).inbox[k1] == CreateMultiClipboards(s.codec, [Text(text1)])
    requires var inbox := At(Next(s, w, Deliver(side1, k1, true, 0)), side2).inbox;
             |inbox| > 0 && inbox[0] == CreateMultiClipboards(s.codec, [Text(text2)])
    ensures var deliver1, deliver2 := Deliver(side1, k1, true, 0), Deliver(side2, 0, true, 0);
            Exec(s, w, Deliveries(side1, k1, side2)) == Some(Next(s, Next(s, w, deliver1), deliver2))
    ensures Written(s.codec, At(w, side1).board, At(w, side1).inbox[k1], side1, true) == [Text(text1), OwnerTag(side1)]
    ensures var q := At(Next(s, w, Deliver(side1, k1, true, 0)), side2);
            Written(s.codec, q.board, q.inbox[0], side2, true) == [Text(text2), OwnerTag(side2)]
  {
    TextMessage(s, text1);
    TextMessage(s, text2);
    var steps := Deliveries(side1, k1, side2);
    var w1 := Next(s, w, steps[0]);
    assert steps[1..] == [steps[1]] && steps[1..][1..] == [];
    assert Exec(s, w1, steps[1..]) == Some(Next(s, w1, steps[1]));
  }

  lemma RemoveMiddle<T>(a: T, b: T)
    ensures [] + [a] == [a] && [a] + [b] == [a, b]
    ensures [a, b][..1] + [a, b][2..] == [a] && [a][..0] + [a][1..] == []
  {
  }

  /** Two texts copied and sent one after the other, and applied the other way round. */
  function OutOfOrder(first: string, second: string): seq<Step> {
    (CopyAndCheck(Host, first) + CopyAndCheck(Host, second)) + Deliveries(Client, 1, Client)
  }

  /** The texts of two copies, still to be applied by the other side. */
  ghost predicate TwoInFlight(s: Setup, w: World, first: string, second: string) {
    && w.client.inbox == [CreateMultiClipboards(s.codec, [Text(first)]), CreateMultiClipboards(s.codec, [Text(second)])]
    && w.host == Peer([Text(second)], 0, []) && w.client.events == 0
  }

  lemma TwoCopiesSent(s: Setup, w: World, first: string, second: string)
    requires Lawful(s.codec) && Quiescent(w) && first != "" && second != ""
    ensures Exec(s, w, CopyAndCheck(Host, first) + CopyAndCheck(Host, second)).Some?
    ensures TwoInFlight(s, Exec(s, w, CopyAndCheck(Host, first) + CopyAndCheck(Host, second)).value, first, second)
  {
    CopyAndCheckSends(s, w, Host, first);
    var w1 := Exec(s, w, CopyAndCheck(Host, first)).value;
    CopyAndCheckSends(s, w1, Host, second);
    ExecConcat(s, w, CopyAndCheck(Host, first), CopyAndCheck(Host, second));
    RemoveMiddle(CreateMultiClipboards(s.codec, [Text(first)]), CreateMultiClipboards(s.codec, [Text(second)]));
  }

  lemma SwappedDeliveries(s: Setup, w: World, first: string, second: string)
    requires Lawful(s.codec) && TwoInFlight(s, w, first, second) && first != "" && second != ""
    ensures Exec(s, w, Deliveries(Client, 1, Client)) == Some(OldTextKept(first, second))
  {
    RemoveMiddle(CreateMultiClipboards(s.codec, [Text(first)]), CreateMultiClipboards(s.codec, [Text(second)]));
    var w1 := Next(s, w, Deliver(Client, 1, true, 0));
    assert w1.client.inbox == [CreateMultiClipboards(s.codec, [Text(first)])];
    DeliveriesWrite(s, w, Client, 1, second, Client, first);
    var w2 := Next(s, w1, Deliver(Client, 0, true, 0));
    assert w2.client == Peer([Text(first), OwnerTag(Client)], 0, []);
  }

  lemma OutOfOrderIsOneSided(first: string, second: string)
    requires first != "" && second != ""
    ensures forall step :: step in OutOfOrder(first, second) ==> OneSided(step, Host)
  {
  }

  /** The world after both were applied, the second first. */
  function OldTextKept(first: string, second: string): World {
    World(Peer([Text(second)], 0, []), Peer([Text(first), OwnerTag(Client)], 0, []))
  }

  lemma OldTextAgreesIff(s: Setup, first: string, second: string)
    requires Lawful(s.codec) && second != ""
    ensures Agree(s, OldTextKept(first, second), Host) <==> first == second
  {
    TextMessage(s, second);
    var tag := OwnerTag(Client);
    assert [Text(first), tag] == [Text(first)] + [tag];
    SameBeforeTag([Text(first)], [Text(second)], tag);
    assert [Text(first)] == [Text(second)] <==> [Text(first)][0] == [Text(second)][0];
  }

  /**
   Order matters: from any quiet pair, applied the other way round, the older text stays for
   good, and the sides agree only if it is the same text.
   */
  lemma OutOfOrderKeepsOldText(s: Setup, w: World, first: string, second: string)
    requires Lawful(s.codec) && Quiescent(w) && first != "" && second != ""
    ensures forall step :: step in OutOfOrder(first, second) ==> OneSided(step, Host)
    ensures Exec(s, w, OutOfOrder(first, second)) == Some(OldTextKept(first, second))
    ensures Quiescent(OldTextKept(first, second))
    ensures Agree(s, OldTextKept(first, second), Host) <==> first == second
  {
    OutOfOrderIsOneSided(first, second);
    TwoCopiesSent(s, w, first, second);
    var sent := CopyAndCheck(Host, first) + CopyAndCheck(Host, second);
    SwappedDeliveries(s, Exec(s, w, sent).value, first, second);
    ExecConcat(s, w, sent, Deliveries(Client, 1, Client));
    OldTextAgreesIff(s, first, second);
  }

  /** Both sides copy a text and send it before either message is applied. */
  function Crossing(mine: string, theirs: string): seq<Step> {
    (CopyAndCheck(Host, mine) + CopyAndCheck(Client, theirs)) + Deliveries(Host, 0, Client)
  }

  /** Two messages on the way in opposite directions. */
  ghost predicate Crossed(s: Setup, w: World, mine: string, theirs: string) {
    && w.host == Peer([Text(mine)], 0, [CreateMultiClipboards(s.codec, [Text(theirs)])])
    && w.client == Peer([Text(theirs)], 0, [CreateMultiClipboards(s.codec, [Text(mine)])])
  }

  lemma BothCopiesSent(s: Setup, w: World, mine: string, theirs: string)
    requires Lawful(s.codec) && Quiescent(w) && mine != "" && theirs != ""
    ensures var sent := CopyAndCheck(Host, mine) + CopyAndCheck(Client, theirs);
            && Exec(s, w, sent).Some?
            && Crossed(s, Exec(s, w, sent).value, mine, theirs)
  {
    CopyAndCheckSends(s, w, Host, mine);
    var w1 := Exec(s, w, CopyAndCheck(Host, mine)).value;
    CopyAndCheckSends(s, w1, Client, theirs);
    ExecConcat(s, w, CopyAndCheck(Host, mine), CopyAndCheck(Client, theirs));
    RemoveMiddle(CreateMultiClipboards(s.codec, [Text(mine)]), CreateMultiClipboards(s.codec, [Text(theirs)]));
    RemoveMiddle(CreateMultiClipboards(s.codec, [Text(theirs)]), CreateMultiClipboards(s.codec, [Text(mine)]));
  }

  lemma CrossedDeliveries(s: Setup, w: World, mine: string, theirs: string)
    requires Lawful(s.codec) && Crossed(s, w, mine, theirs) && mine != "" && theirs != ""
    ensures Exec(s, w, Deliveries(Host, 0, Client)) == Some(Swapped(mine, theirs))
  {
    RemoveMiddle(w.host.inbox[0], w.client.inbox[0]);
    RemoveMiddle(w.client.inbox[0], w.host.inbox[0]);
    DeliveriesWrite(s, w, Host, 0, theirs, Client, mine);
    var steps := Deliveries(Host, 0, Client);
    var w1 := Next(s, w, steps[0]);
    assert steps[1..] == [steps[1]] && steps[1..][1..] == [];
    assert Next(s, w1, steps[1]) == Swapped(mine, theirs);
  }

  function Swapped(mine: string, theirs: string): World {
    World(Peer([Text(theirs), OwnerTag(Host)], 0, []), Peer([Text(mine), OwnerTag(Client)], 0, []))
  }

  lemma CrossingIsPrompt(s: Setup, mine: string, theirs: string)
    requires Lawful(s.codec) && mine != "" && theirs != ""
    ensures forall step :: step in Crossing(mine, theirs) ==> Prompt(s, step)
  {
    TextMessage(s, mine);
    TextMessage(s, theirs);
  }

  /**
   Two copies that cross from a quiet pair, the second when its side may not take over, swap the
   texts, and the sides stay so.
   */
  lemma CrossedCopiesSwap(s: Setup, w: World, mine: string, theirs: string)
    requires Lawful(s.codec) && Quiescent(w) && mine != "" && theirs != ""
    ensures AllTwoSided(s, w, Crossing(mine, theirs))
    ensures forall step :: step in Crossing(mine, theirs) ==> Prompt(s, step)
    ensures var sent := Exec(s, w, CopyAndCheck(Host, mine)); sent.Some? && !MayTakeOver(sent.value, Client)
    ensures Exec(s, w, Crossing(mine, theirs)) == Some(Swapped(mine, theirs))
    ensures Quiescent(Swapped(mine, theirs))
  {
    CrossingIsPrompt(s, mine, theirs);
    CopyAndCheckSends(s, w, Host, mine);
    BothCopiesSent(s, w, mine, theirs);
    var sent := CopyAndCheck(Host, mine) + CopyAndCheck(Client, theirs);
    CrossedDeliveries(s, Exec(s, w, sent).value, mine, theirs);
    ExecConcat(s, w, sent, Deliveries(Host, 0, Client));
    PromptIsTwoSided(s, w, Crossing(mine, theirs));
  }
}

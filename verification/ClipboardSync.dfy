/**
 Two machines keeping their clipboards the same. Each writes what it receives together with an
 owner tag, and a change event on a clipboard that carries the tag sends nothing back.
 */
module ClipboardSync {
  import opened Wrappers
  import opened ClipboardProto

  datatype Side = Host | Client

  const OWNER_FORMAT := "dyn.com.rustdesk.owner"
  const EXCEL_FORMAT := "XML Spreadsheet"

  function OwnerData(side: Side): Bytes {
    if side.Host? then [1] else [2]
  }

  /** Either side's mark counts, whichever side asks. */
  predicate IsOwner(data: Bytes) {
    |data| > 0 && data[0] & 3 != 0
  }

  function OwnerTag(side: Side): Data {
    Special(OWNER_FORMAT, OwnerData(side))
  }

  predicate IsOwnerTag(d: Data) {
    d.Special? && d.name == OWNER_FORMAT && IsOwner(d.data)
  }

  ghost predicate Tagged(board: seq<Data>) {
    exists d :: d in board && IsOwnerTag(d)
  }

  /** The formats asked for; file urls only where files are copied through the clipboard. */
  predicate Supported(d: Data, unixFiles: bool) {
    match d
    case NoData => false
    case FileUrl(_) => unixFiles
    case Special(name, _) => name == OWNER_FORMAT || name == EXCEL_FORMAT
    case _ => true
  }

  predicate Shareable(d: Data) {
    match d
    case Special(name, _) => name != OWNER_FORMAT
    case Text(text) => text != ""
    case _ => true
  }

  function Select(board: seq<Data>, unixFiles: bool): (r: seq<Data>)
    ensures forall d :: d in r <==> d in board && Supported(d, unixFiles)
  {
    if board == [] then []
    else (if Supported(board[0], unixFiles) then [board[0]] else []) + Select(board[1..], unixFiles)
  }

  function Share(data: seq<Data>): (r: seq<Data>)
    ensures forall d :: d in r <==> d in data && Shareable(d)
  {
    if data == [] then [] else (if Shareable(data[0]) then [data[0]] else []) + Share(data[1..])
  }

  /** What a read for synchronising yields. */
  ghost function Shared(board: seq<Data>, unixFiles: bool, force: bool): (r: seq<Data>)
    ensures forall d :: d in r ==> d in board && Sent(d)
  {
    var data := Select(board, unixFiles);
    if !force && Tagged(data) then []
    else if exists d :: d in Share(data) && d.FileUrl? then []
    else Share(data)
  }

  lemma TaggedReadsNothing(board: seq<Data>, unixFiles: bool)
    requires Tagged(board)
    ensures Shared(board, unixFiles, false) == []
  {
  }

  // ---- one machine ----

  const MAX_RETRY := 3

  /** How one attempt to read the clipboard ends. */
  datatype Attempt = Readable | Occupied | Broken

  /** Some attempt succeeds, and all before it found the clipboard occupied. */
  predicate ReadAllowed(attempts: seq<Attempt>)
    requires |attempts| >= MAX_RETRY
  {
    exists i :: 0 <= i < MAX_RETRY && attempts[i].Readable? && forall k :: 0 <= k < i ==> attempts[k].Occupied?
  }

  method HasFiles(data: seq<Data>) returns (files: bool)
    ensures files <==> exists d :: d in data && d.FileUrl?
  {
    for i := 0 to |data|
      invariant forall k :: 0 <= k < i ==> !data[k].FileUrl?
    {
      if data[i].FileUrl? {
        return true;
      }
    }
    files := false;
  }

  /** A machine's clipboard and the last message made from it. */
  class Machine {
    const codec: Codec
    const unixFiles: bool
    var board: seq<Data>
    var last: seq<Clipboard>

    constructor (codec: Codec, unixFiles: bool)
      ensures this.codec == codec && this.unixFiles == unixFiles && board == [] && last == []
    {
      this.codec, this.unixFiles, board, last := codec, unixFiles, [], [];
    }

    /** Read what is asked for, trying again while another program holds the clipboard. */
    method GetFormats(attempts: seq<Attempt>) returns (r: Option<seq<Data>>)
      requires |attempts| >= MAX_RETRY
      ensures r == if ReadAllowed(attempts) then Some(Select(board, unixFiles)) else None
    {
      for i := 0 to MAX_RETRY
        invariant forall k :: 0 <= k < i ==> attempts[k].Occupied?
      {
        match attempts[i]
        case Readable => return Some(Select(board, unixFiles));
        case Occupied =>
        case Broken => return None;
      }
      r := None;
    }

    method GetFormatsFilter(force: bool, attempts: seq<Attempt>) returns (r: Option<seq<Data>>)
      requires |attempts| >= MAX_RETRY
      ensures r == if !ReadAllowed(attempts) then None
                   else if !force && Tagged(Select(board, unixFiles)) then Some([])
                   else Some(Share(Select(board, unixFiles)))
    {
      var read := GetFormats(attempts);
      if read.None? {
        return None;
      }
      var data := read.value;
      if !force {
        for i := 0 to |data|
          invariant forall k :: 0 <= k < i ==> !IsOwnerTag(data[k])
        {
          if IsOwnerTag(data[i]) {
            return Some([]);
          }
        }
      }
      r := Some(Share(data));
    }

    /** File urls are synchronised elsewhere, and hide whatever they come with. */
    method Get(force: bool, attempts: seq<Attempt>) returns (r: Option<seq<Data>>)
      requires |attempts| >= MAX_RETRY
      ensures r == if ReadAllowed(attempts) then Some(Shared(board, unixFiles, force)) else None
    {
      r := GetFormatsFilter(force, attempts);
      if r.Some? {
        var files := HasFiles(r.value);
        if files {
          r := Some([]);
        }
      }
    }

    /** The message to send, if the clipboard can be opened and read and has something to share. */
    method CheckClipboard(force: bool, canOpen: bool, attempts: seq<Attempt>) returns (m: Option<seq<Clipboard>>)
      requires |attempts| >= MAX_RETRY
      modifies this`last
      ensures var content := Shared(board, unixFiles, force);
              && m == (if canOpen && ReadAllowed(attempts) && content != []
                       then Some(CreateMultiClipboards(codec, content)) else None)
              && last == (if m.Some? then m.value else old(last))
    {
      if !canOpen {
        return None;
      }
      var content := Get(force, attempts);
      if content.None? || content.value == [] {
        return None;
      }
      last := CreateMultiClipboards(codec, content.value);
      m := Some(last);
    }

    /** Write received contents with the owner tag, if there are any and the clipboard takes them. */
    method UpdateClipboard(clips: seq<Clipboard>, side: Side, setOk: bool)
      modifies this`board
      ensures board == Written(codec, old(board), clips, side, setOk)
    {
      var toUpdate := FromMultiClipboards(codec, clips);
      if toUpdate == [] {
        return;
      }
      toUpdate := toUpdate + [OwnerTag(side)];
      if setOk {
        board := toUpdate;
      }
    }
  }

  function Written(c: Codec, board: seq<Data>, clips: seq<Clipboard>, side: Side, setOk: bool): seq<Data> {
    var data := FromMultiClipboards(c, clips);
    if data == [] || !setOk then board else data + [OwnerTag(side)]
  }

  // ---- the two machines together ----

  /** A clipboard, the change events not yet looked at, and the messages not yet applied. */
  datatype Peer = Peer(board: seq<Data>, events: nat, inbox: seq<seq<Clipboard>>)

  datatype World = World(host: Peer, client: Peer)

  /** What the machines have in common; a write raises at most maxEvents change events. */
  datatype Setup = Setup(codec: Codec, unixFiles: bool, maxEvents: nat)

  datatype Step =
    | Copy(side: Side, content: seq<Data>, raised: nat)
    | Check(side: Side, readOk: bool, wanted: bool)
    | Deliver(side: Side, k: nat, setOk: bool, raised: nat)

  function At(w: World, side: Side): Peer { if side.Host? then w.host else w.client }

  function Opposite(side: Side): Side { if side.Host? then Client else Host }

  function With(w: World, side: Side, p: Peer): World {
    if side.Host? then w.(host := p) else w.(client := p)
  }

  predicate Enabled(s: Setup, w: World, step: Step) {
    match step
    case Copy(_, _, _) => true
    case Check(side, _, _) => At(w, side).events > 0
    case Deliver(side, k, _, raised) => k < |At(w, side).inbox| && raised <= s.maxEvents
  }

  ghost function Next(s: Setup, w: World, step: Step): World
    requires Enabled(s, w, step)
  {
    var p := At(w, step.side);
    match step
    case Copy(side, content, raised) =>
      With(w, side, p.(board := content, events := p.events + raised))
    case Check(side, readOk, wanted) =>
      var content := Shared(p.board, s.unixFiles, false);
      var w' := With(w, side, p.(events := p.events - 1));
      if readOk && wanted && content != [] then
        var q := At(w', Opposite(side));
        With(w', Opposite(side), q.(inbox := q.inbox + [CreateMultiClipboards(s.codec, content)]))
      else w'
    case Deliver(side, k, setOk, raised) =>
      var board := Written(s.codec, p.board, p.inbox[k], side, setOk);
      var wrote := FromMultiClipboards(s.codec, p.inbox[k]) != [] && setOk;
      With(w, side, Peer(board, p.events + (if wrote then raised else 0), p.inbox[..k] + p.inbox[k + 1..]))
  }

  // ---- quiescence ----

  ghost function PeerMeasure(p: Peer, maxEvents: nat): nat {
    (if Tagged(p.board) then p.events else p.events * (maxEvents + 2)) + |p.inbox| * (maxEvents + 1)
  }

  ghost function Measure(w: World, maxEvents: nat): nat {
    PeerMeasure(w.host, maxEvents) + PeerMeasure(w.client, maxEvents)
  }

  predicate Quiescent(w: World) {
    w.host.events == 0 && w.client.events == 0 && w.host.inbox == [] && w.client.inbox == []
  }

  /** Every check and every delivery, successful or not, in any order, brings the measure down. */
  lemma StepDecreases(s: Setup, w: World, step: Step)
    requires Enabled(s, w, step) && !step.Copy?
    ensures Measure(Next(s, w, step), s.maxEvents) < Measure(w, s.maxEvents)
  {
    if step.Check? {
      CheckDecreases(s, w, step);
    } else {
      DeliverDecreases(s, w, step);
    }
  }

  lemma CheckDecreases(s: Setup, w: World, check: Step)
    requires check.Check? && Enabled(s, w, check)
    ensures Measure(Next(s, w, check), s.maxEvents) < Measure(w, s.maxEvents)
  {
    var p, q := At(w, check.side), At(w, Opposite(check.side));
    if Tagged(p.board) {
      TaggedReadsNothing(p.board, s.unixFiles);
    }
    Distribute(p.events - 1, 1, s.maxEvents + 2);
    Distribute(|q.inbox|, 1, s.maxEvents + 1);
  }

  lemma DeliverDecreases(s: Setup, w: World, deliver: Step)
    requires deliver.Deliver? && Enabled(s, w, deliver)
    ensures Measure(Next(s, w, deliver), s.maxEvents) < Measure(w, s.maxEvents)
  {
    var side, m := deliver.side, s.maxEvents;
    var p, p' := At(w, side), At(Next(s, w, deliver), side);
    assert |p'.inbox| == |p.inbox| - 1;
    Distribute(|p.inbox| - 1, 1, m + 1);
    AtLeast(p.events, m + 2);
    if FromMultiClipboards(s.codec, p.inbox[deliver.k]) != [] && deliver.setOk {
      assert p'.board[|p'.board| - 1] == OwnerTag(side);
      assert IsOwnerTag(OwnerTag(side));
      assert Tagged(p'.board);
    }
  }

  lemma AtLeast(a: nat, k: nat)
    requires k > 0
    ensures a * k >= a
  {
  }

  lemma Distribute(a: nat, b: nat, k: nat)
    ensures (a + b) * k == a * k + b * k
  {
  }

  /** The world after the steps, if each can be taken. */
  ghost function Exec(s: Setup, w: World, steps: seq<Step>): Option<World>
    decreases |steps|
  {
    if steps == [] then Some(w)
    else if !Enabled(s, w, steps[0]) then None
    else Exec(s, Next(s, w, steps[0]), steps[1..])
  }

  /** Once nobody copies any more, a run is never longer than the measure. */
  lemma {:induction false} RunsQuiesce(s: Setup, w: World, steps: seq<Step>)
    requires Exec(s, w, steps).Some? && forall step :: step in steps ==> !step.Copy?
    ensures |steps| + Measure(Exec(s, w, steps).value, s.maxEvents) <= Measure(w, s.maxEvents)
    decreases |steps|
  {
    if steps == [] {
    } else {
      StepDecreases(s, w, steps[0]);
      RunsQuiesce(s, Next(s, w, steps[0]), steps[1..]);
    }
  }

  /** A run can stop only when nothing is pending. */
  lemma StuckIsQuiescent(s: Setup, w: World)
    ensures Quiescent(w) <==> forall step: Step :: Enabled(s, w, step) ==> step.Copy?
  {
    if w.host.events > 0 { assert Enabled(s, w, Check(Host, true, true)); }
    if w.client.events > 0 { assert Enabled(s, w, Check(Client, true, true)); }
    if w.host.inbox != [] { assert Enabled(s, w, Deliver(Host, 0, true, 0)); }
    if w.client.inbox != [] { assert Enabled(s, w, Deliver(Client, 0, true, 0)); }
  }
}

/** What of a clipboard is shared, item by item, and what a received message writes. */
module ClipboardContents {
  import opened Wrappers
  import opened ClipboardProto
  import opened ClipboardSync

  /** What is shared by itself: text that is not empty, rich text, markup, images and spreadsheets. */
  predicate Plain(d: Data) {
    match d
    case Text(text) => text != ""
    case Rtf(_) => true
    case Html(_) => true
    case ImageData(_) => true
    case Special(name, _) => name == "XML Spreadsheet"
    case FileUrl(_) => false
    case NoData => false
  }

  /** The mark of either side: one of the two low bits of the first byte. */
  predicate Marked(d: Data) {
    && d.Special? && d.name == "dyn.com.rustdesk.owner"
    && |d.data| > 0 && (d.data[0] & 1 != 0 || d.data[0] & 2 != 0)
  }

  lemma LowBits(b: bv8)
    ensures b & 3 != 0 <==> b & 1 != 0 || b & 2 != 0
  {
  }

  lemma MarkedIsTag(d: Data)
    ensures IsOwnerTag(d) <==> Marked(d)
  {
    if d.Special? && |d.data| > 0 {
      LowBits(d.data[0]);
    }
  }

  /** A clipboard is marked exactly if an item on it is. */
  lemma TaggedIsMarked(board: seq<Data>)
    ensures Tagged(board) <==> exists i :: 0 <= i < |board| && Marked(board[i])
  {
    if Tagged(board) {
      var d :| d in board && IsOwnerTag(d);
      MarkedIsTag(d);
      var i :| 0 <= i < |board| && board[i] == d;
      assert Marked(board[i]);
    }
    if i :| 0 <= i < |board| && Marked(board[i]) {
      MarkedIsTag(board[i]);
    }
  }

  predicate HasFiles(board: seq<Data>) {
    exists i :: 0 <= i < |board| && board[i].FileUrl?
  }

  /** The plain items in order, with repeats. */
  function PlainItems(board: seq<Data>): seq<Data> {
    if board == [] then []
    else if Plain(board[0]) then [board[0]] + PlainItems(board[1..])
    else PlainItems(board[1..])
  }

  lemma {:induction false} PlainItemsConcat(a: seq<Data>, b: seq<Data>)
    ensures PlainItems(a + b) == PlainItems(a) + PlainItems(b)
  {
    if a == [] {
      assert a + b == b;
    } else {
      assert (a + b)[0] == a[0] && (a + b)[1..] == a[1..] + b;
      PlainItemsConcat(a[1..], b);
    }
  }

  /** Without file urls, what is kept of what is asked for is what is plain. */
  lemma {:induction false} ShareIsPlain(board: seq<Data>, unixFiles: bool)
    requires unixFiles ==> !HasFiles(board)
    ensures Share(Select(board, unixFiles)) == PlainItems(board)
  {
    if board == [] {
    } else {
      var rest := board[1..];
      if unixFiles {
        assert forall i :: 0 <= i < |rest| ==> rest[i] == board[i + 1];
        assert !board[0].FileUrl?;
      }
      ShareIsPlain(rest, unixFiles);
      ShareFirst(if Supported(board[0], unixFiles) then [board[0]] else [], Select(rest, unixFiles));
    }
  }

  lemma ShareFirst(first: seq<Data>, rest: seq<Data>)
    requires |first| <= 1
    ensures Share(first + rest) == (if first != [] && Shareable(first[0]) then [first[0]] else []) + Share(rest)
  {
    if first == [] {
      assert first + rest == rest;
    } else {
      assert (first + rest)[1..] == rest;
    }
  }

  /**
   Nothing is shared of a marked clipboard, unless forced, nor of one with file urls where files
   are copied; of any other, the plain items.
   */
  lemma SharedIs(board: seq<Data>, unixFiles: bool, force: bool)
    ensures Shared(board, unixFiles, force) ==
            if (!force && exists i :: 0 <= i < |board| && Marked(board[i])) || (unixFiles && HasFiles(board)) then []
            else PlainItems(board)
  {
    TaggedIsMarked(board);
    TaggedSelected(board, unixFiles);
    if unixFiles && HasFiles(board) {
      FilesSelected(board);
    } else {
      ShareIsPlain(board, unixFiles);
      PlainItemsPlain(board);
    }
  }

  lemma FilesSelected(board: seq<Data>)
    requires HasFiles(board)
    ensures exists d :: d in Share(Select(board, true)) && d.FileUrl?
  {
    var i :| 0 <= i < |board| && board[i].FileUrl?;
    assert board[i] in Select(board, true);
    assert board[i] in Share(Select(board, true));
  }

  lemma TaggedSelected(board: seq<Data>, unixFiles: bool)
    ensures Tagged(Select(board, unixFiles)) <==> Tagged(board)
  {
    if Tagged(board) {
      var d :| d in board && IsOwnerTag(d);
      assert d in Select(board, unixFiles);
    }
  }

  lemma {:induction false} PlainItemsPlain(board: seq<Data>)
    ensures forall d :: d in PlainItems(board) ==> Plain(d)
  {
    if board == [] {
    } else {
      PlainItemsPlain(board[1..]);
    }
  }

  /** A clipboard of plain items only is shared as it is. */
  lemma PlainIsShared(board: seq<Data>, unixFiles: bool, force: bool)
    requires forall i :: 0 <= i < |board| ==> Plain(board[i])
    ensures Shared(board, unixFiles, force) == board
  {
    AllPlain(board);
    SharedIs(board, unixFiles, force);
  }

  lemma {:induction false} AllPlain(board: seq<Data>)
    requires forall i :: 0 <= i < |board| ==> Plain(board[i])
    ensures PlainItems(board) == board
  {
    if board == [] {
    } else {
      AllPlain(board[1..]);
    }
  }

  /** Items that change nothing of what is shared. */
  predicate Ignored(d: Data, unixFiles: bool, force: bool) {
    match d
    case Text(text) => text == ""
    case Special(name, _) => name != "XML Spreadsheet" && (force || !Marked(d))
    case FileUrl(_) => !unixFiles
    case NoData => true
    case _ => false
  }

  lemma IgnoredChangesNothing(before: seq<Data>, d: Data, after: seq<Data>, unixFiles: bool, force: bool)
    requires Ignored(d, unixFiles, force)
    ensures Shared(before + [d] + after, unixFiles, force) == Shared(before + after, unixFiles, force)
  {
    var with, without := before + [d] + after, before + after;
    SharedIs(with, unixFiles, force);
    SharedIs(without, unixFiles, force);
    SameItems(before, d, after);
    PlainItemsConcat(before + [d], after);
    PlainItemsConcat(before, [d]);
    PlainItemsConcat(before, after);
    assert PlainItems([d]) == [];
    assert PlainItems(before) + [] == PlainItems(before);
  }

  lemma SameItems(before: seq<Data>, d: Data, after: seq<Data>)
    ensures var with, without := before + [d] + after, before + after;
            && with[|before|] == d
            && (forall i :: 0 <= i < |without| ==> without[i] == with[if i < |before| then i else i + 1])
            && (forall i :: 0 <= i < |with| && i != |before| ==> with[i] == without[if i < |before| then i else i - 1])
  {
  }

  /** Copied files hide whatever they come with. */
  lemma FilesHideRest(board: seq<Data>, force: bool)
    requires HasFiles(board)
    ensures Shared(board, true, force) == []
  {
    SharedIs(board, true, force);
  }

  // ---- reading and writing ----

  /** Three attempts: a read succeeds if one does and all before it found the clipboard occupied. */
  lemma ReadAllowedIs(first: Attempt, second: Attempt, third: Attempt)
    ensures ReadAllowed([first, second, third]) <==>
            first.Readable? || (first.Occupied? && (second.Readable? || (second.Occupied? && third.Readable?)))
  {
    var attempts := [first, second, third];
    assert attempts[0] == first && attempts[1] == second && attempts[2] == third;
    if i :| 0 <= i < MAX_RETRY && attempts[i].Readable? && forall k :: 0 <= k < i ==> attempts[k].Occupied? {
      if i > 0 {
        assert attempts[0].Occupied?;
      }
      if i > 1 {
        assert attempts[1].Occupied?;
      }
    }
  }

  /** A failed write, and a message without contents, leave the clipboard; any other replaces it, marked. */
  lemma WrittenIs(c: Codec, board: seq<Data>, clips: seq<Clipboard>, side: Side, setOk: bool)
    ensures var data, board' := FromMultiClipboards(c, clips), Written(c, board, clips, side, setOk);
            if setOk && data != [] then
              |board'| == |data| + 1 && board'[..|data|] == data && Marked(board'[|data|])
            else board' == board
  {
    MarkedIsTag(OwnerTag(side));
  }

  /** Host and client leave different marks. */
  lemma MarksDiffer()
    ensures OwnerTag(Host) == Special("dyn.com.rustdesk.owner", [1])
    ensures OwnerTag(Client) == Special("dyn.com.rustdesk.owner", [2])
  {
  }

  // ---- the two machines ----

  /** A copy replaces the contents and raises events. */
  lemma CopyIs(s: Setup, w: World, side: Side, content: seq<Data>, raised: nat)
    ensures var w' := Next(s, w, Copy(side, content, raised));
            && At(w', side) == At(w, side).(board := content, events := At(w, side).events + raised)
            && At(w', Opposite(side)) == At(w, Opposite(side))
  {
  }

  /** A check uses up an event; what is shared goes to the other side last, if read and wanted. */
  lemma CheckIs(s: Setup, w: World, side: Side, readOk: bool, wanted: bool)
    requires At(w, side).events > 0
    ensures var w', p, q := Next(s, w, Check(side, readOk, wanted)), At(w, side), At(w, Opposite(side));
            var content := Shared(p.board, s.unixFiles, false);
            && At(w', side) == p.(events := p.events - 1)
            && At(w', Opposite(side)) == q.(inbox := q.inbox +
                 if readOk && wanted && content != [] then [CreateMultiClipboards(s.codec, content)] else [])
  {
    var q := At(w, Opposite(side));
    assert q.inbox + [] == q.inbox;
  }

  /**
   A delivery takes the message out. Its contents, if any, replace the clipboard and raise events,
   unless the write fails.
   */
  lemma DeliverIs(s: Setup, w: World, side: Side, k: nat, setOk: bool, raised: nat)
    requires Enabled(s, w, Deliver(side, k, setOk, raised))
    ensures var w', p := Next(s, w, Deliver(side, k, setOk, raised)), At(w, side);
            var data := FromMultiClipboards(s.codec, p.inbox[k]);
            && At(w', Opposite(side)) == At(w, Opposite(side))
            && At(w', side).inbox == p.inbox[..k] + p.inbox[k + 1..]
            && (if setOk && data != [] then
                  At(w', side).board == data + [OwnerTag(side)] && At(w', side).events == p.events + raised
                else At(w', side).board == p.board && At(w', side).events == p.events)
  {
  }
}

/**
 Merging the answers to a discovery broadcast into the saved list of LAN peers: the newest
 answer comes first, and a peer that answers from several addresses keeps all of them.
 */
module LanPeers {
  import opened Wrappers

  /** Two entries are the same peer if their keys are equal; the key contains the id and more. */
  datatype Key = Key(id: string, variant: string)

  datatype Peer = Peer(key: Key, info: string, online: bool, ipMac: map<string, string>)

  function Keys(ps: seq<Peer>): (ks: seq<Key>)
    ensures |ks| == |ps| && forall i :: 0 <= i < |ps| ==> ks[i] == ps[i].key
  {
    seq(|ps|, i requires 0 <= i < |ps| => ps[i].key)
  }

  predicate Distinct(ks: seq<Key>) {
    forall i, j :: 0 <= i < j < |ks| ==> ks[i] != ks[j]
  }

  function Offline(ps: seq<Peer>): (r: seq<Peer>)
    ensures |r| == |ps| && forall i :: 0 <= i < |ps| ==> r[i] == ps[i].(online := false)
  {
    seq(|ps|, i requires 0 <= i < |ps| => ps[i].(online := false))
  }

  function Lookup(ps: seq<Peer>, k: Key): Option<Peer> {
    if ps == [] then None else if ps[0].key == k then Some(ps[0]) else Lookup(ps[1..], k)
  }

  function RemoveFirst(ps: seq<Peer>, k: Key): seq<Peer> {
    if ps == [] then [] else if ps[0].key == k then ps[1..] else [ps[0]] + RemoveFirst(ps[1..], k)
  }

  /** The entry an answer makes: what is already known of this run's answers is added, and wins. */
  function Merged(ps: seq<Peer>, r: Peer, idSeen: bool): Peer {
    var known := Lookup(ps, r.key);
    if known.Some? && idSeen then r.(ipMac := r.ipMac + known.value.ipMac, online := true) else r
  }

  function Ids(rs: seq<Peer>): (ids: set<string>)
    ensures forall i :: 0 <= i < |rs| ==> rs[i].key.id in ids
  {
    set i | 0 <= i < |rs| :: rs[i].key.id
  }

  /** The list after the answers rs. */
  function After(saved: seq<Peer>, rs: seq<Peer>): seq<Peer>
    decreases |rs|
  {
    if rs == [] then Offline(saved)
    else
      var n := |rs| - 1;
      var ps := After(saved, rs[..n]);
      [Merged(ps, rs[n], rs[n].key.id in Ids(rs[..n]))] + RemoveFirst(ps, rs[n].key)
  }

  lemma LookupFrom(ps: seq<Peer>, k: Key, pos: nat)
    requires pos < |ps| && ps[pos].key != k
    ensures Lookup(ps[pos..], k) == Lookup(ps[pos + 1..], k)
    ensures ps[..pos] + RemoveFirst(ps[pos..], k) == ps[..pos + 1] + RemoveFirst(ps[pos + 1..], k)
  {
    assert ps[pos..][0] == ps[pos] && ps[pos..][1..] == ps[pos + 1..];
    var rest := RemoveFirst(ps[pos + 1..], k);
    assert ps[..pos] + ([ps[pos]] + rest) == ps[..pos + 1] + rest;
  }

  /** The position of the first entry with this key, or the length. */
  method Position(ps: seq<Peer>, k: Key) returns (pos: nat)
    ensures pos <= |ps|
    ensures pos < |ps| ==> Lookup(ps, k) == Some(ps[pos]) && RemoveFirst(ps, k) == ps[..pos] + ps[pos + 1..]
    ensures pos == |ps| ==> Lookup(ps, k) == None && RemoveFirst(ps, k) == ps
  {
    pos := 0;
    assert ps[0..] == ps && ps[..0] == [];
    while pos < |ps| && ps[pos].key != k
      invariant pos <= |ps|
      invariant Lookup(ps, k) == Lookup(ps[pos..], k)
      invariant RemoveFirst(ps, k) == ps[..pos] + RemoveFirst(ps[pos..], k)
    {
      LookupFrom(ps, k, pos);
      pos := pos + 1;
    }
    if pos < |ps| {
      assert ps[pos..][0] == ps[pos] && ps[pos..][1..] == ps[pos + 1..];
    } else {
      assert ps[pos..] == [] && ps[..pos] == ps;
    }
  }

  /** When an answer looks at the time since the last write, and when its own write, if any, is done. */
  datatype Moment = Moment(looks: int, wrote: int)

  /** A write of the list, after so many answers. */
  datatype Write = Write(answers: nat, peers: seq<Peer>)

  /** What is written while the first n answers come in: at the first, and then 300 ms apart. */
  function Writes(saved: seq<Peer>, responses: seq<Peer>, clock: seq<Moment>, n: nat): (ws: seq<Write>)
    requires n <= |responses| == |clock|
    ensures forall j :: 0 <= j < |ws| ==> 0 < ws[j].answers <= n
  {
    if n == 0 then []
    else
      var ws := Writes(saved, responses, clock, n - 1);
      var last := LastWrite(clock, ws);
      if last.None? || clock[n - 1].looks - last.value > 300 then ws + [Write(n, After(saved, responses[..n]))] else ws
  }

  function LastWrite(clock: seq<Moment>, ws: seq<Write>): Option<int>
    requires forall j :: 0 <= j < |ws| ==> 0 < ws[j].answers <= |clock|
  {
    if ws == [] then None else Some(clock[ws[|ws| - 1].answers - 1].wrote)
  }

  /** The list is written at times while answers come in, and once more at the end. */
  method HandleReceivedPeers(saved: seq<Peer>, responses: seq<Peer>, clock: seq<Moment>)
    returns (peers: seq<Peer>, writes: seq<Write>)
    requires |clock| == |responses|
    ensures peers == After(saved, responses)
    ensures writes == Writes(saved, responses, clock, |responses|) + [Write(|responses|, peers)]
  {
    assert responses[..0] == [];
    peers := Offline(saved);
    writes := [];
    var responseSet: set<string> := {};
    var lastWrite: Option<int> := None;
    for i := 0 to |responses|
      invariant peers == After(saved, responses[..i])
      invariant responseSet == Ids(responses[..i])
      invariant writes == Writes(saved, responses, clock, i) && lastWrite == LastWrite(clock, writes)
    {
      var inResponseSet := responses[i].key.id in responseSet;
      responseSet := responseSet + {responses[i].key.id};
      IdsStep(responses, i);
      peers := InsertAnswer(saved, responses, i, peers, inResponseSet);
      if lastWrite.None? || clock[i].looks - lastWrite.value > 300 {
        writes := writes + [Write(i + 1, peers)];
        lastWrite := Some(clock[i].wrote);
      }
    }
    assert responses[..|responses|] == responses;
    writes := writes + [Write(|responses|, peers)];
  }

  /** Each write is the list after as many answers. */
  lemma {:induction false} WriteIsAfter(saved: seq<Peer>, responses: seq<Peer>, clock: seq<Moment>, n: nat, j: nat)
    requires n <= |responses| == |clock| && j < |Writes(saved, responses, clock, n)|
    ensures var w := Writes(saved, responses, clock, n)[j]; w.peers == After(saved, responses[..w.answers])
  {
    if n == 0 {
      assert false;
    } else if j < |Writes(saved, responses, clock, n - 1)| {
      WriteIsAfter(saved, responses, clock, n - 1, j);
    }
  }

  /** The first answer is written at once, and a later one only more than 300 ms after the last write. */
  ghost predicate Spaced(clock: seq<Moment>, ws: seq<Write>, j: nat)
    requires j < |ws| && forall i :: 0 <= i < |ws| ==> 0 < ws[i].answers <= |clock|
  {
    if j == 0 then ws[0].answers == 1
    else
      && ws[j - 1].answers < ws[j].answers
      && clock[ws[j].answers - 1].looks - clock[ws[j - 1].answers - 1].wrote > 300
  }

  lemma {:induction false} WritesSpaced(saved: seq<Peer>, responses: seq<Peer>, clock: seq<Moment>, n: nat, j: nat)
    requires n <= |responses| == |clock| && j < |Writes(saved, responses, clock, n)|
    ensures Spaced(clock, Writes(saved, responses, clock, n), j)
  {
    if n == 0 {
      assert false;
    } else if j < |Writes(saved, responses, clock, n - 1)| {
      WritesSpaced(saved, responses, clock, n - 1, j);
    } else {
      FirstIsWritten(saved, responses, clock, n - 1);
    }
  }

  /** A write happens at the first answer and at any that comes more than 300 ms after the last write. */
  lemma WrittenOnceDue(saved: seq<Peer>, responses: seq<Peer>, clock: seq<Moment>, n: nat)
    requires 0 < n <= |responses| == |clock|
    ensures var before, now := Writes(saved, responses, clock, n - 1), Writes(saved, responses, clock, n);
            if before == [] || clock[n - 1].looks - clock[before[|before| - 1].answers - 1].wrote > 300 then
              |now| == |before| + 1 && now[..|before|] == before && now[|before|].answers == n
            else now == before
  {
  }

  lemma {:induction false} FirstIsWritten(saved: seq<Peer>, responses: seq<Peer>, clock: seq<Moment>, n: nat)
    requires n <= |responses| == |clock|
    ensures Writes(saved, responses, clock, n) == [] <==> n == 0
  {
    if n == 0 {
    } else {
      FirstIsWritten(saved, responses, clock, n - 1);
    }
  }

  /** Put an answer first, with what is known of its peer, and take the old entry out. */
  method InsertAnswer(ghost saved: seq<Peer>, responses: seq<Peer>, i: nat, known: seq<Peer>, inResponseSet: bool)
    returns (peers: seq<Peer>)
    requires i < |responses| && known == After(saved, responses[..i])
    requires inResponseSet <==> responses[i].key.id in Ids(responses[..i])
    ensures peers == After(saved, responses[..i + 1])
  {
    assert responses[..i + 1][..i] == responses[..i];
    var peer := responses[i];
    peers := known;
    var pos := Position(peers, peer.key);
    if pos < |peers| {
      var peer1 := peers[pos];
      peers := peers[..pos] + peers[pos + 1..];
      if inResponseSet {
        peer := peer.(ipMac := peer.ipMac + peer1.ipMac, online := true);
      }
    }
    peers := [peer] + peers;
  }

  lemma IdsStep(rs: seq<Peer>, n: nat)
    requires n < |rs|
    ensures Ids(rs[..n + 1]) == Ids(rs[..n]) + {rs[n].key.id}
  {
    forall id | id in Ids(rs[..n]) + {rs[n].key.id}
      ensures id in Ids(rs[..n + 1])
    {
      if id in Ids(rs[..n]) {
        var i :| 0 <= i < n && rs[..n][i].key.id == id;
        assert rs[..n + 1][i].key.id == id;
      } else {
        assert rs[..n + 1][n].key.id == id;
      }
    }
  }

  // ---- order ----

  /** The keys not in a set, in order. */
  function Drop(ks: seq<Key>, out: set<Key>): seq<Key> {
    if ks == [] then [] else if ks[0] in out then Drop(ks[1..], out) else [ks[0]] + Drop(ks[1..], out)
  }

  /** Who answered, the latest last answer first. */
  function Responders(rs: seq<Peer>): seq<Key>
    decreases |rs|
  {
    if rs == [] then []
    else [rs[|rs| - 1].key] + Drop(Responders(rs[..|rs| - 1]), {rs[|rs| - 1].key})
  }

  function KeySet(rs: seq<Peer>): set<Key> {
    set i | 0 <= i < |rs| :: rs[i].key
  }

  lemma {:induction false} DropConcat(a: seq<Key>, b: seq<Key>, out: set<Key>)
    ensures Drop(a + b, out) == Drop(a, out) + Drop(b, out)
  {
    if a == [] {
      assert a + b == b;
    } else {
      DropConcat(a[1..], b, out);
      var all := a + b;
      assert all[0] == a[0] && all[1..] == a[1..] + b;
      if a[0] !in out {
        var rest := Drop(a[1..], out);
        assert [a[0]] + (rest + Drop(b, out)) == ([a[0]] + rest) + Drop(b, out);
      }
    }
  }

  lemma {:induction false} DropTwice(a: seq<Key>, s: set<Key>, t: set<Key>)
    ensures Drop(Drop(a, s), t) == Drop(a, s + t)
  {
    if a == [] {
    } else {
      DropTwice(a[1..], s, t);
      if a[0] !in s {
        assert Drop(a, s) == [a[0]] + Drop(a[1..], s);
        assert Drop(a, s)[1..] == Drop(a[1..], s);
      }
    }
  }

  lemma {:induction false} DropMember(a: seq<Key>, s: set<Key>, k: Key)
    ensures k in Drop(a, s) <==> k in a && k !in s
  {
    if a == [] {
    } else {
      DropMember(a[1..], s, k);
    }
  }

  lemma {:induction false} DropNothing(a: seq<Key>, s: set<Key>)
    requires forall k :: k in a ==> k !in s
    ensures Drop(a, s) == a
  {
    if a == [] {
    } else {
      DropNothing(a[1..], s);
    }
  }

  lemma {:induction false} DropDistinct(a: seq<Key>, s: set<Key>)
    requires Distinct(a)
    ensures Distinct(Drop(a, s))
  {
    if a == [] {
    } else {
      DropDistinct(a[1..], s);
      DropMember(a[1..], s, a[0]);
      if a[0] !in s {
        DistinctCons(a[0], Drop(a[1..], s));
      }
    }
  }

  lemma DistinctCons(k: Key, ks: seq<Key>)
    requires Distinct(ks) && k !in ks
    ensures Distinct([k] + ks)
  {
  }

  /** Removing the first entry of a key from a list without duplicates drops the key. */
  lemma {:induction false} RemoveIsDrop(ps: seq<Peer>, k: Key)
    requires Distinct(Keys(ps))
    ensures Keys(RemoveFirst(ps, k)) == Drop(Keys(ps), {k})
  {
    if ps == [] {
    } else {
      var rest := ps[1..];
      assert Keys(ps)[1..] == Keys(rest);
      if ps[0].key == k {
        assert k !in Keys(rest);
        DropNothing(Keys(rest), {k});
      } else {
        RemoveIsDrop(rest, k);
        KeysCons(ps[0], RemoveFirst(rest, k));
      }
    }
  }

  lemma KeySetStep(rs: seq<Peer>)
    requires rs != []
    ensures KeySet(rs) == KeySet(rs[..|rs| - 1]) + {rs[|rs| - 1].key}
  {
  }

  lemma MoveToFront(front: seq<Key>, saved: seq<Key>, answered: set<Key>, k: Key)
    requires Distinct(front + Drop(saved, answered))
    ensures var rest := Drop(front + Drop(saved, answered), {k});
            && rest == Drop(front, {k}) + Drop(saved, answered + {k})
            && Distinct([k] + rest)
  {
    var all := front + Drop(saved, answered);
    DropConcat(front, Drop(saved, answered), {k});
    DropTwice(saved, answered, {k});
    DropDistinct(all, {k});
    DropMember(all, {k}, k);
    DistinctCons(k, Drop(all, {k}));
  }

  /**
   The merged list has no peer twice, everyone who answered first, latest answer first, and
   then everyone saved who did not answer, in the old order.
   */
  lemma {:induction false} OrderAfter(saved: seq<Peer>, rs: seq<Peer>)
    requires Distinct(Keys(saved))
    ensures Keys(After(saved, rs)) == Responders(rs) + Drop(Keys(saved), KeySet(rs))
    ensures Distinct(Keys(After(saved, rs)))
    decreases |rs|
  {
    if rs == [] {
      DropNothing(Keys(saved), KeySet(rs));
      assert Keys(Offline(saved)) == Keys(saved);
      assert [] + Keys(saved) == Keys(saved);
    } else {
      var n := |rs| - 1;
      OrderAfter(saved, rs[..n]);
      KeysAfterOne(saved, rs);
      MoveToFront(Responders(rs[..n]), Keys(saved), KeySet(rs[..n]), rs[n].key);
      KeySetStep(rs);
      ConsConcat(rs[n].key, Drop(Responders(rs[..n]), {rs[n].key}), Drop(Keys(saved), KeySet(rs)));
    }
  }

  lemma ConsConcat(k: Key, a: seq<Key>, b: seq<Key>)
    ensures [k] + (a + b) == ([k] + a) + b
  {
  }

  lemma KeysAfterOne(saved: seq<Peer>, rs: seq<Peer>)
    requires rs != [] && Distinct(Keys(After(saved, rs[..|rs| - 1])))
    ensures var n := |rs| - 1;
            Keys(After(saved, rs)) == [rs[n].key] + Drop(Keys(After(saved, rs[..n])), {rs[n].key})
  {
    var n := |rs| - 1;
    var ps := After(saved, rs[..n]);
    RemoveIsDrop(ps, rs[n].key);
    KeysCons(Merged(ps, rs[n], rs[n].key.id in Ids(rs[..n])), RemoveFirst(ps, rs[n].key));
  }

  lemma KeysCons(p: Peer, ps: seq<Peer>)
    ensures Keys([p] + ps) == [p.key] + Keys(ps)
  {
  }

  /** The index of the last answer of a peer. */
  function LastIndex(rs: seq<Peer>, k: Key): int
    ensures LastIndex(rs, k) < |rs|
    decreases |rs|
  {
    if rs == [] then -1
    else if rs[|rs| - 1].key == k then |rs| - 1
    else LastIndex(rs[..|rs| - 1], k)
  }

  /** Keys in the order of their last answers, the latest first. */
  ghost predicate ByLastAnswer(rs: seq<Peer>, ks: seq<Key>) {
    forall i, j :: 0 <= i < j < |ks| ==> LastIndex(rs, ks[i]) > LastIndex(rs, ks[j])
  }

  /** It is an answer of that peer, and no later one is. */
  predicate IsLastAnswer(rs: seq<Peer>, k: Key, n: int) {
    0 <= n < |rs| && rs[n].key == k && forall j :: n < j < |rs| ==> rs[j].key != k
  }

  lemma {:induction false} LastIndexMeaning(rs: seq<Peer>, k: Key)
    ensures k in KeySet(rs) <==> LastIndex(rs, k) >= 0
    ensures k in KeySet(rs) ==> IsLastAnswer(rs, k, LastIndex(rs, k))
    decreases |rs|
  {
    if rs == [] {
    } else {
      KeySetStep(rs);
      LastIndexMeaning(rs[..|rs| - 1], k);
    }
  }

  lemma {:induction false} ResponderAnswered(rs: seq<Peer>, k: Key)
    ensures k in Responders(rs) <==> k in KeySet(rs)
    decreases |rs|
  {
    if rs == [] {
    } else {
      var n := |rs| - 1;
      KeySetStep(rs);
      ResponderAnswered(rs[..n], k);
      DropMember(Responders(rs[..n]), {rs[n].key}, k);
    }
  }

  /** Responders are exactly those who answered, each once, by falling index of their last answer. */
  lemma RespondersByLastAnswer(rs: seq<Peer>)
    ensures forall k :: k in Responders(rs) <==> k in KeySet(rs)
    ensures forall k :: k in Responders(rs) ==> IsLastAnswer(rs, k, LastIndex(rs, k))
    ensures ByLastAnswer(rs, Responders(rs))
  {
    forall k
      ensures k in Responders(rs) <==> k in KeySet(rs)
      ensures k in Responders(rs) ==> IsLastAnswer(rs, k, LastIndex(rs, k))
    {
      ResponderAnswered(rs, k);
      LastIndexMeaning(rs, k);
    }
    RespondersOrdered(rs);
  }

  lemma {:induction false} RespondersOrdered(rs: seq<Peer>)
    ensures ByLastAnswer(rs, Responders(rs))
    decreases |rs|
  {
    if rs == [] {
    } else {
      var n := |rs| - 1;
      RespondersOrdered(rs[..n]);
      var rest := Drop(Responders(rs[..n]), {rs[n].key});
      DropKeepsOrder(rs[..n], Responders(rs[..n]), rs[n].key);
      forall j | 0 <= j < |rest|
        ensures LastIndex(rs, rest[j]) == LastIndex(rs[..n], rest[j]) < n
      {
        DropMember(Responders(rs[..n]), {rs[n].key}, rest[j]);
      }
      assert Responders(rs) == [rs[n].key] + rest;
    }
  }

  lemma {:induction false} DropKeepsOrder(rs: seq<Peer>, ks: seq<Key>, k: Key)
    requires ByLastAnswer(rs, ks)
    ensures ByLastAnswer(rs, Drop(ks, {k}))
  {
    if ks == [] {
    } else {
      DropKeepsOrder(rs, ks[1..], k);
      if ks[0] != k {
        var rest := Drop(ks[1..], {k});
        forall j | 0 <= j < |rest|
          ensures LastIndex(rs, ks[0]) > LastIndex(rs, rest[j])
        {
          DropMember(ks[1..], {k}, rest[j]);
          var m :| 0 <= m < |ks[1..]| && ks[1..][m] == rest[j];
          assert ks[m + 1] == rest[j];
        }
        assert Drop(ks, {k}) == [ks[0]] + rest;
      }
    }
  }

  // ---- addresses ----

  /** This run's addresses of a peer, the earliest answer winning for each. */
  function Addresses(rs: seq<Peer>, k: Key): map<string, string>
    decreases |rs|
  {
    if rs == [] then map[]
    else
      var n := |rs| - 1;
      if rs[n].key == k then rs[n].ipMac + Addresses(rs[..n], k) else Addresses(rs[..n], k)
  }

  /** The saved addresses stay if another peer with the same id answered before this one did. */
  predicate KeepsSaved(saved: seq<Peer>, rs: seq<Peer>, k: Key)
    decreases |rs|
  {
    if rs == [] then false
    else
      var n := |rs| - 1;
      if k in KeySet(rs[..n]) then KeepsSaved(saved, rs[..n], k)
      else rs[n].key == k && k.id in Ids(rs[..n]) && Lookup(saved, k).Some?
  }

  lemma {:induction false} LookupAfterRemove(ps: seq<Peer>, gone: Key, k: Key)
    requires gone != k
    ensures Lookup(RemoveFirst(ps, gone), k) == Lookup(ps, k)
  {
    if ps == [] || ps[0].key == gone {
    } else {
      LookupAfterRemove(ps[1..], gone, k);
    }
  }

  lemma {:induction false} LookupOffline(ps: seq<Peer>, k: Key)
    ensures var p, q := Lookup(Offline(ps), k), Lookup(ps, k);
            (p.Some? <==> q.Some?) && (q.Some? ==> p.value == q.value.(online := false) && q.value.key == k)
  {
    if ps == [] {
    } else {
      assert Offline(ps)[1..] == Offline(ps[1..]);
      LookupOffline(ps[1..], k);
    }
  }

  /** An answered peer's entry: online, as in its last answer, with this run's addresses. */
  ghost predicate AnsweredEntry(saved: seq<Peer>, rs: seq<Peer>, k: Key, p: Peer) {
    && p.key == k && p.online
    && 0 <= LastIndex(rs, k) && p.info == rs[LastIndex(rs, k)].info
    && (KeepsSaved(saved, rs, k) ==> Lookup(saved, k).Some?)
    && p.ipMac == if KeepsSaved(saved, rs, k) then Addresses(rs, k) + Lookup(saved, k).value.ipMac else Addresses(rs, k)
  }

  /**
   What the merge says of one peer. It is listed if it was saved or answered. If it did not
   answer it is as saved, but offline. If it did, it is online, its other data are those of its
   last answer, and its addresses are the union of this run's, plus the saved ones exactly if
   a peer with the same id had answered before.
   */
  lemma {:induction false} PeerAfter(saved: seq<Peer>, rs: seq<Peer>, k: Key)
    requires forall i :: 0 <= i < |rs| ==> rs[i].online
    ensures var p, q := Lookup(After(saved, rs), k), Lookup(saved, k);
            if k in KeySet(rs) then p.Some? && AnsweredEntry(saved, rs, k, p.value)
            else if q.Some? then p == Some(q.value.(online := false)) && p.value.key == k
            else p == None
    decreases |rs|
  {
    if rs == [] {
      LookupOffline(saved, k);
    } else {
      var n := |rs| - 1;
      var ps := After(saved, rs[..n]);
      PeerAfter(saved, rs[..n], k);
      KeySetStep(rs);
      assert After(saved, rs)[1..] == RemoveFirst(ps, rs[n].key);
      if rs[n].key == k {
        AnswerMerged(saved, rs);
      } else {
        LookupAfterRemove(ps, rs[n].key, k);
      }
    }
  }

  lemma AnswerMerged(saved: seq<Peer>, rs: seq<Peer>)
    requires rs != [] && rs[|rs| - 1].online
    requires var n := |rs| - 1;
             var k := rs[n].key;
             var p, q := Lookup(After(saved, rs[..n]), k), Lookup(saved, k);
             if k in KeySet(rs[..n]) then p.Some? && AnsweredEntry(saved, rs[..n], k, p.value)
             else if q.Some? then p == Some(q.value.(online := false))
             else p == None
    ensures var n := |rs| - 1;
            AnsweredEntry(saved, rs, rs[n].key, Merged(After(saved, rs[..n]), rs[n], rs[n].key.id in Ids(rs[..n])))
  {
    var n := |rs| - 1;
    var k, before := rs[n].key, rs[..n];
    if k in KeySet(before) {
      var i :| 0 <= i < n && before[i].key == k;
      assert k.id in Ids(before);
      if KeepsSaved(saved, before, k) {
        UnionAssociates(rs[n].ipMac, Addresses(before, k), Lookup(saved, k).value.ipMac);
      }
    } else {
      NoAddresses(before, k);
      assert rs[n].ipMac + map[] == rs[n].ipMac;
    }
  }

  lemma UnionAssociates(a: map<string, string>, b: map<string, string>, c: map<string, string>)
    ensures a + (b + c) == (a + b) + c
  {
  }

  lemma {:induction false} NoAddresses(rs: seq<Peer>, k: Key)
    requires k !in KeySet(rs)
    ensures Addresses(rs, k) == map[]
    decreases |rs|
  {
    if rs == [] {
    } else {
      KeySetStep(rs);
      NoAddresses(rs[..|rs| - 1], k);
    }
  }

  predicate Reports(r: Peer, k: Key, ip: string) {
    r.key == k && ip in r.ipMac
  }

  /** An address is known exactly if some answer of the peer had it. */
  lemma {:induction false} AddressReported(rs: seq<Peer>, k: Key, ip: string)
    ensures ip in Addresses(rs, k) <==> exists j :: 0 <= j < |rs| && Reports(rs[j], k, ip)
    decreases |rs|
  {
    if rs == [] {
    } else {
      var n := |rs| - 1;
      AddressReported(rs[..n], k, ip);
      if ip in Addresses(rs[..n], k) {
        var j :| 0 <= j < n && Reports(rs[..n][j], k, ip);
        assert Reports(rs[j], k, ip);
      } else {
        forall j | 0 <= j < n
          ensures !Reports(rs[j], k, ip)
        {
          assert !Reports(rs[..n][j], k, ip);
        }
        assert ip in Addresses(rs, k) <==> Reports(rs[n], k, ip);
      }
    }
  }

  /** Its value is that of the earliest answer that had it. */
  lemma {:induction false} EarliestAddressWins(rs: seq<Peer>, k: Key, ip: string, j: nat)
    requires j < |rs| && Reports(rs[j], k, ip)
    requires forall i :: 0 <= i < j ==> !Reports(rs[i], k, ip)
    ensures ip in Addresses(rs, k) && Addresses(rs, k)[ip] == rs[j].ipMac[ip]
    decreases |rs|
  {
    var n := |rs| - 1;
    if j == n {
      AddressReported(rs[..n], k, ip);
      assert forall i :: 0 <= i < n ==> rs[..n][i] == rs[i];
    } else {
      EarliestAddressWins(rs[..n], k, ip, j);
    }
  }

  /** If no other peer answers under this id, the saved addresses are gone. */
  lemma {:induction false} OneIdOnePeer(saved: seq<Peer>, rs: seq<Peer>, k: Key)
    requires forall i :: 0 <= i < |rs| && rs[i].key.id == k.id ==> rs[i].key == k
    ensures !KeepsSaved(saved, rs, k)
    decreases |rs|
  {
    if rs == [] {
    } else {
      var n := |rs| - 1;
      assert forall i :: 0 <= i < n ==> rs[..n][i] == rs[i];
      OneIdOnePeer(saved, rs[..n], k);
    }
  }
}

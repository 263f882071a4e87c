/** Splitting peer ids by the bitmap of who is online, most significant bit first. */
module OnlineStates {
  import opened Wrappers

  /** The bit of the j-th id of a byte, from left to right. */
  function Bit(j: nat): bv8
    requires j < 8
  {
    if j == 0 then 0x80 else if j == 1 then 0x40 else if j == 2 then 0x20 else if j == 3 then 0x10
    else if j == 4 then 0x08 else if j == 5 then 0x04 else if j == 6 then 0x02 else 0x01
  }

  lemma BitIsShift(j: nat)
    requires j < 8
    ensures Bit(j) == (1 as bv8) << (7 - j)
  {
  }

  /** Whether the i-th bit of the bitmap is set. */
  predicate IsOnline(states: seq<bv8>, i: nat)
    requires i / 8 < |states|
  {
    states[i / 8] & Bit(i % 8) == Bit(i % 8)
  }

  function Pick(ids: seq<string>, on: seq<bool>, wanted: bool): seq<string>
    requires |on| == |ids|
  {
    if ids == [] then []
    else
      Pick(ids[..|ids| - 1], on[..|ids| - 1], wanted) +
      (if on[|ids| - 1] == wanted then [ids[|ids| - 1]] else [])
  }

  function Needed(n: nat): nat { (n + 7) / 8 }

  function Flags(states: seq<bv8>, n: nat): (on: seq<bool>)
    requires Needed(n) <= |states|
    ensures |on| == n && forall i :: 0 <= i < n ==> on[i] == IsOnline(states, i)
  {
    seq(n, i requires 0 <= i < n => IsOnline(states, i))
  }

  lemma NeededStep(i: nat, n: nat)
    ensures i / 8 < n <==> Needed(i + 1) <= n
  {
  }

  lemma NeededGrows(i: nat, j: nat)
    requires i <= j
    ensures Needed(i) <= Needed(j)
  {
  }

  lemma PickStep(ids: seq<string>, states: seq<bv8>, i: nat, wanted: bool)
    requires i < |ids| && Needed(i + 1) <= |states|
    ensures Pick(ids[..i + 1], Flags(states, i + 1), wanted) ==
            Pick(ids[..i], Flags(states, i), wanted) + (if IsOnline(states, i) == wanted then [ids[i]] else [])
  {
    assert ids[..i + 1][..i] == ids[..i];
    assert Flags(states, i + 1)[..i] == Flags(states, i);
  }

  /** None stands for the panic of indexing past a response that is too short. */
  method SplitOnline(ids: seq<string>, states: seq<bv8>) returns (r: Option<(seq<string>, seq<string>)>)
    ensures r.None? <==> |states| < Needed(|ids|)
    ensures r.Some? ==> r.value == (Pick(ids, Flags(states, |ids|), true), Pick(ids, Flags(states, |ids|), false))
  {
    var onlines, offlines := [], [];
    for i := 0 to |ids|
      invariant Needed(i) <= |states|
      invariant onlines == Pick(ids[..i], Flags(states, i), true)
      invariant offlines == Pick(ids[..i], Flags(states, i), false)
    {
      NeededStep(i, |states|);
      if i / 8 >= |states| {
        NeededGrows(i + 1, |ids|);
        return None;
      }
      PickStep(ids, states, i, true);
      PickStep(ids, states, i, false);
      if IsOnline(states, i) {
        onlines := onlines + [ids[i]];
      } else {
        offlines := offlines + [ids[i]];
      }
    }
    assert ids[..|ids|] == ids;
    r := Some((onlines, offlines));
  }

  // ---- the server's side ----

  function Shifted(b: bool, j: nat): bv8
    requires j < 8
  {
    if b then Bit(j) else 0
  }

  function FlagAt(on: seq<bool>, i: nat): bool {
    i < |on| && on[i]
  }

  function EncodeByte(on: seq<bool>, k: nat): bv8 {
    Shifted(FlagAt(on, 8 * k), 0) | Shifted(FlagAt(on, 8 * k + 1), 1) | Shifted(FlagAt(on, 8 * k + 2), 2) |
    Shifted(FlagAt(on, 8 * k + 3), 3) | Shifted(FlagAt(on, 8 * k + 4), 4) | Shifted(FlagAt(on, 8 * k + 5), 5) |
    Shifted(FlagAt(on, 8 * k + 6), 6) | Shifted(FlagAt(on, 8 * k + 7), 7)
  }

  function Encode(on: seq<bool>): seq<bv8> {
    seq(Needed(|on|), k requires 0 <= k => EncodeByte(on, k))
  }

  /** A response that encodes who is online is long enough, and every id is reported as flagged. */
  lemma FlagsRoundTrip(on: seq<bool>)
    ensures Needed(|on|) <= |Encode(on)| && Flags(Encode(on), |on|) == on
  {
  }

  /** The two lists partition the ids and keep their order: merging them by the flags restores the ids. */
  function Merge(on: seq<bool>, yes: seq<string>, no: seq<string>): seq<string>
    decreases |on|
  {
    if on == [] then []
    else
      var n := |on| - 1;
      if on[n] then
        if yes == [] then [] else Merge(on[..n], yes[..|yes| - 1], no) + [yes[|yes| - 1]]
      else
        if no == [] then [] else Merge(on[..n], yes, no[..|no| - 1]) + [no[|no| - 1]]
  }

  lemma {:induction false} SplitIsPartition(ids: seq<string>, on: seq<bool>)
    requires |on| == |ids|
    ensures Merge(on, Pick(ids, on, true), Pick(ids, on, false)) == ids
    ensures |Pick(ids, on, true)| + |Pick(ids, on, false)| == |ids|
  {
    if ids == [] {
    } else {
      var n := |ids| - 1;
      var yes, no := Pick(ids[..n], on[..n], true), Pick(ids[..n], on[..n], false);
      SplitIsPartition(ids[..n], on[..n]);
      assert ids == ids[..n] + [ids[n]];
      PickLast(ids, on, true);
      PickLast(ids, on, false);
      if on[n] {
        MergeYes(on, yes, no, ids[n]);
      } else {
        MergeNo(on, yes, no, ids[n]);
      }
    }
  }

  lemma PickLast(ids: seq<string>, on: seq<bool>, wanted: bool)
    requires |on| == |ids| > 0
    ensures var n := |ids| - 1;
            var before := Pick(ids[..n], on[..n], wanted);
            Pick(ids, on, wanted) == if on[n] == wanted then before + [ids[n]] else before
  {
  }

  lemma MergeYes(on: seq<bool>, yes: seq<string>, no: seq<string>, id: string)
    requires on != [] && on[|on| - 1]
    ensures Merge(on, yes + [id], no) == Merge(on[..|on| - 1], yes, no) + [id]
  {
  }

  lemma MergeNo(on: seq<bool>, yes: seq<string>, no: seq<string>, id: string)
    requires on != [] && !on[|on| - 1]
    ensures Merge(on, yes, no + [id]) == Merge(on[..|on| - 1], yes, no) + [id]
  {
  }

  /** A bitmap has as many bytes as its bits need. */
  lemma NeededMeaning(n: nat)
    ensures n <= 8 * Needed(n) < n + 8
  {
  }
}

/**
 The bounded ring of audio samples shared by the decoder thread and the output device.
 A fixed array, the slot of the oldest sample and the number of samples held.
 */
module SampleRing {

  // Samples are moved, never computed with.
  type Sample = real

  const SILENCE: Sample := 0.0

  /** The last n elements of s, or all of s when it is shorter. */
  function LastN(s: seq<Sample>, n: nat): (r: seq<Sample>)
    ensures |r| == (if |s| <= n then |s| else n)
  {
    if |s| <= n then s else s[|s| - n..]
  }

  /** Keeping the last n of s + t drops from the front of s first, then from t. */
  lemma LastNOfConcat(s: seq<Sample>, t: seq<Sample>, n: nat)
    ensures |t| >= n ==> LastN(s + t, n) == t[|t| - n..]
    ensures |t| <= n && |s| + |t| > n ==> LastN(s + t, n) == s[|s| + |t| - n..] + t
  {
  }

  function Min(a: nat, b: nat): nat {
    if a <= b then a else b
  }

  class Ring {
    const data: array<Sample>
    var head: nat
    var len: nat

    ghost predicate Valid()
      reads this, data
    {
      len <= data.Length && (if data.Length == 0 then head == 0 else head < data.Length)
    }

    /** The samples held, oldest first. */
    ghost function Contents(): (s: seq<Sample>)
      requires Valid()
      reads this, data
      ensures |s| == len
    {
      if head + len <= data.Length then data[head..head + len]
      else data[head..] + data[..head + len - data.Length]
    }

    constructor (capacity: nat)
      ensures Valid() && fresh(data) && data.Length == capacity
      ensures Contents() == []
    {
      data := new Sample[capacity](_ => SILENCE);
      head, len := 0, 0;
    }

    /** Forget the oldest `count` samples, or all of them. */
    method Skip(count: nat)
      requires Valid()
      modifies this
      ensures Valid()
      ensures Contents() == old(Contents())[Min(count, old(len))..]
    {
      var n := Min(count, len);
      head := if head + n >= data.Length then head + n - data.Length else head + n;
      len := len - n;
    }

    method Push(x: Sample)
      requires Valid() && len < data.Length
      modifies this`len, data
      ensures Valid()
      ensures Contents() == old(Contents()) + [x]
    {
      var slot := if head + len < data.Length then head + len else head + len - data.Length;
      data[slot] := x;
      len := len + 1;
    }

    method PushSlice(elems: seq<Sample>)
      requires Valid() && len + |elems| <= data.Length
      modifies this`len, data
      ensures Valid()
      ensures Contents() == old(Contents()) + elems
    {
      for i := 0 to |elems|
        invariant Valid() && len == old(len) + i
        invariant Contents() == old(Contents()) + elems[..i]
      {
        Push(elems[i]);
      }
    }

    /** Append all of `elems`, making room by forgetting the oldest samples. */
    method PushSliceOverwrite(elems: seq<Sample>)
      requires Valid()
      modifies this, data
      ensures Valid()
      ensures Contents() == LastN(old(Contents()) + elems, data.Length)
    {
      LastNOfConcat(Contents(), elems, data.Length);
      var vacant := data.Length - len;
      if |elems| > vacant {
        Skip(Min(|elems| - vacant, len));
      }
      vacant := data.Length - len;
      if |elems| > vacant {
        PushSlice(elems[|elems| - vacant..]);
      } else {
        PushSlice(elems);
      }
    }

    function At(i: nat): (x: Sample)
      requires Valid() && i < len
      reads this, data
      ensures x == Contents()[i]
    {
      data[if head + i < data.Length then head + i else head + i - data.Length]
    }

    method CopyOldest(out: array<Sample>, n: nat)
      requires Valid() && out != data && n <= len && n <= out.Length
      modifies out
      ensures out[..n] == old(Contents())[..n]
      ensures out[n..] == old(out[n..])
    {
      ghost var items := Contents();
      for i := 0 to n
        modifies out
        invariant Valid() && Contents() == items
        invariant out[..i] == items[..i]
        invariant out[i..] == old(out[i..])
      {
        out[i] := At(i);
      }
    }

    /** Move the oldest samples, as many as there are and fit, into the front of `out`. */
    method PopSlice(out: array<Sample>)
      requires Valid() && out != data
      modifies this, out
      ensures Valid()
      ensures var n := Min(out.Length, old(len));
              && Contents() == old(Contents())[n..]
              && out[..n] == old(Contents())[..n]
              && out[n..] == old(out[..])[n..]
    {
      var n := Min(out.Length, len);
      CopyOldest(out, n);
      Skip(n);
    }
  }
}

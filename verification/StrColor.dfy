/** The colour of a string: a 32-bit rolling hash under an alpha value. */
module StrColor {
  type Byte = x: nat | x < 256

  /** The loop's recurrence without wrap-around. */
  function Poly(s: seq<Byte>): nat {
    if s == [] then 0 else 31 * Poly(s[..|s| - 1]) + s[|s| - 1]
  }

  /** Unsigned 32-bit wrap-around. */
  function Wrap(x: int): (r: nat)
    ensures r < 0x1_0000_0000
  {
    x % 0x1_0000_0000
  }

  /** A 24-bit value without its bit 15: the mask 0xFF7FFF. */
  function Without15(x: nat): (r: nat)
    requires x < 0x100_0000
    ensures r < 0x100_0000
    ensures x / 0x8000 % 2 == 0 ==> r == x
    ensures x / 0x8000 % 2 == 1 ==> r == x - 0x8000
  {
    x / 0x1_0000 * 0x1_0000 + x % 0x8000
  }

  lemma WrapCongruent(x: int, y: int, k: int)
    requires x == y + k * 0x1_0000_0000
    ensures Wrap(x) == Wrap(y)
  {
  }

  /** One round of the wrapping loop is one step of the polynomial. */
  lemma WrapStep(hash: nat, poly: nat, b: Byte)
    requires hash == Wrap(poly)
    ensures Wrap(b + Wrap(Wrap(hash * 32) - hash)) == Wrap(31 * poly + b)
  {
    var shifted := Wrap(hash * 32);
    var times31 := Wrap(shifted - hash);
    var a, c := hash * 32 / 0x1_0000_0000, (shifted - hash) / 0x1_0000_0000;
    assert shifted == hash * 32 - a * 0x1_0000_0000;
    assert times31 == shifted - hash - c * 0x1_0000_0000;
    var q := poly / 0x1_0000_0000;
    assert poly == hash + q * 0x1_0000_0000;
    WrapCongruent(31 * poly + b, b + times31, 31 * q + a + c);
  }

  lemma LowBits(x: nat)
    ensures Wrap(x) % 0x100_0000 == x % 0x100_0000
  {
    var wrapped, q := Wrap(x), x / 0x1_0000_0000;
    var high, low := wrapped / 0x100_0000, wrapped % 0x100_0000;
    assert x == wrapped + q * 0x1_0000_0000;
    Mod24(x, high + 0x100 * q, low);
  }

  lemma Mod24(x: nat, high: nat, low: nat)
    requires x == high * 0x100_0000 + low && low < 0x100_0000
    ensures x % 0x100_0000 == low
  {
  }

  method Str2Color(s: seq<Byte>, alpha: Byte) returns (color: nat)
    ensures color == alpha * 0x100_0000 + Without15(PowerSum(s) % 0x100_0000)
    ensures color < 0x1_0000_0000
    ensures color / 0x100_0000 == alpha
  {
    var hash := 0;
    for i := 0 to |s|
      invariant hash == Wrap(Poly(s[..i]))
    {
      assert s[..i + 1][..i] == s[..i];
      WrapStep(hash, Poly(s[..i]), s[i]);
      hash := Wrap(s[i] + Wrap(Wrap(hash * 32) - hash));
    }
    assert s[..|s|] == s;
    PolyIsPowerSum(s);
    LowBits(Poly(s));
    hash := hash % 0x100_0000;
    var rgb := Without15(hash);
    color := alpha * 0x100_0000 + rgb;
  }

  function Power31(n: nat): nat { if n == 0 then 1 else 31 * Power31(n - 1) }

  /** The sum of s[i] * 31^(n-1-i), term by term. */
  function PowerSum(s: seq<Byte>): nat {
    if s == [] then 0 else s[0] * Power31(|s| - 1) + PowerSum(s[1..])
  }

  /** Running the loop's recurrence over all bytes yields that sum. */
  lemma {:induction false} PolyIsPowerSum(s: seq<Byte>)
    ensures Poly(s) == PowerSum(s)
  {
    if s == [] {
    } else {
      PolyIsPowerSum(s[1..]);
      PolyCons(s[0], s[1..]);
      assert [s[0]] + s[1..] == s;
    }
  }

  lemma {:induction false} PolyCons(b: Byte, t: seq<Byte>)
    ensures Poly([b] + t) == b * Power31(|t|) + Poly(t)
  {
    if t == [] {
      assert [b] + t == [b];
      assert [b][..0] == [];
    } else {
      var t' := t[..|t| - 1];
      assert ([b] + t)[..|t|] == [b] + t';
      PolyCons(b, t');
      Rescale(b, Power31(|t'|));
    }
  }

  lemma Rescale(b: nat, p: nat)
    ensures b * (31 * p) == 31 * (b * p)
  {
  }
}

/** Printing a public key as groups of four hexadecimal digits. */
module Fingerprint {
  type Byte = x: nat | x < 256

  function Digit(c: char): (d: nat)
    ensures d < 16
  {
    if '0' <= c <= '9' then (c - '0') as nat else if 'a' <= c <= 'f' then 10 + (c - 'a') as nat else 0
  }

  function HexChar(d: nat): (c: char)
    requires d < 16
    ensures Digit(c) == d && c != ' '
  {
    "0123456789abcdef"[d]
  }

  function Hex(bytes: seq<Byte>): (s: string)
    ensures |s| == 2 * |bytes|
    ensures forall k :: 0 <= k < |s| ==> s[k] != ' '
  {
    if bytes == [] then ""
    else [HexChar(bytes[0] / 16), HexChar(bytes[0] % 16)] + Hex(bytes[1..])
  }

  /** A space before every fourth character but the first; i is the index of the first character. */
  function Grouped(s: string, i: nat): string {
    if s == "" then ""
    else (if i > 0 && i % 4 == 0 then " " else "") + [s[0]] + Grouped(s[1..], i + 1)
  }

  function PkToFingerprint(pk: seq<Byte>): string {
    Grouped(Hex(pk), 0)
  }

  function WithoutSpaces(s: string): string {
    if s == "" then "" else (if s[0] == ' ' then "" else [s[0]]) + WithoutSpaces(s[1..])
  }

  function ReadHex(s: string): seq<Byte> {
    if |s| < 2 then [] else [Digit(s[0]) * 16 + Digit(s[1])] + ReadHex(s[2..])
  }

  lemma {:induction false} UngroupGrouped(s: string, i: nat)
    requires forall k :: 0 <= k < |s| ==> s[k] != ' '
    ensures WithoutSpaces(Grouped(s, i)) == s
  {
    if s == "" {
    } else {
      UngroupGrouped(s[1..], i + 1);
      var rest := [s[0]] + Grouped(s[1..], i + 1);
      assert rest[1..] == Grouped(s[1..], i + 1);
      assert WithoutSpaces(rest) == s;
      if i > 0 && i % 4 == 0 {
        assert Grouped(s, i) == " " + rest;
        assert (" " + rest)[1..] == rest;
      } else {
        assert Grouped(s, i) == rest;
      }
    }
  }

  lemma {:induction false} ReadHexOfHex(bytes: seq<Byte>)
    ensures ReadHex(Hex(bytes)) == bytes
  {
    if bytes == [] {
    } else {
      ReadHexOfHex(bytes[1..]);
      assert Hex(bytes)[2..] == Hex(bytes[1..]);
    }
  }

  lemma {:induction false} GroupedLength(s: string, i: nat)
    ensures |Grouped(s, i)| == |s| + (if s == "" then 0 else (i + |s| - 1) / 4 - (if i == 0 then 0 else (i - 1) / 4))
  {
    if s == "" {
    } else {
      GroupedLength(s[1..], i + 1);
    }
  }

  /** Reading the fingerprint back gives the key, so different keys print differently. */
  lemma FingerprintRoundTrip(pk: seq<Byte>)
    ensures ReadHex(WithoutSpaces(PkToFingerprint(pk))) == pk
    ensures |PkToFingerprint(pk)| == (if pk == [] then 0 else 2 * |pk| + (2 * |pk| - 1) / 4)
  {
    var hex := Hex(pk);
    UngroupGrouped(hex, 0);
    ReadHexOfHex(pk);
    GroupedLength(hex, 0);
  }

  /** The digits are those of lower-case hexadecimal. */
  lemma HexCharIs(d: nat)
    requires d < 16
    ensures HexChar(d) == if d < 10 then '0' + d as char else 'a' + (d - 10) as char
  {
  }

  /** The high half of each byte comes first. */
  lemma {:induction false} DigitsPrinted(pk: seq<Byte>, i: nat)
    requires i < |pk|
    ensures Hex(pk)[2 * i] == HexChar(pk[i] / 16) && Hex(pk)[2 * i + 1] == HexChar(pk[i] % 16)
    decreases |pk|
  {
    var rest := Hex(pk[1..]);
    assert Hex(pk)[2..] == rest;
    if i == 0 {
    } else {
      DigitsPrinted(pk[1..], i - 1);
      assert Hex(pk)[2 * i] == rest[2 * (i - 1)] && Hex(pk)[2 * i + 1] == rest[2 * (i - 1) + 1];
    }
  }

  /** How many spaces come before the n-th digit, or just before it. */
  function Spaces(n: nat): nat {
    n / 4
  }

  predicate SpaceBefore(n: nat) {
    n > 0 && n % 4 == 0
  }

  lemma SpacesStep(n: nat)
    ensures Spaces(n + 1) == Spaces(n) + if SpaceBefore(n + 1) then 1 else 0
  {
  }

  /** Digit k of a text whose first digit is number i overall, and the space before it. */
  ghost predicate DigitAt(s: string, i: nat, k: nat, at: int)
    requires k < |s|
  {
    && 0 <= at < |Grouped(s, i)| && Grouped(s, i)[at] == s[k]
    && (SpaceBefore(i + k) ==> at > 0 && Grouped(s, i)[at - 1] == ' ')
  }

  /** What precedes the first digit in a text, and it. */
  function Head(s: string, i: nat): (h: string)
    requires s != ""
    ensures |h| == (if SpaceBefore(i) then 2 else 1) && h[|h| - 1] == s[0] && (SpaceBefore(i) ==> h[0] == ' ')
  {
    (if SpaceBefore(i) then " " else "") + [s[0]]
  }

  lemma ShiftDigit(s: string, i: nat, k: nat, at: int)
    requires 0 < k < |s| && DigitAt(s[1..], i + 1, k - 1, at)
    ensures DigitAt(s, i, k, |Head(s, i)| + at)
  {
    var head, rest := Head(s, i), Grouped(s[1..], i + 1);
    assert Grouped(s, i) == head + rest;
    assert (head + rest)[|head| + at] == rest[at];
    if SpaceBefore(i + k) {
      assert (head + rest)[|head| + at - 1] == rest[at - 1];
    }
  }

  lemma {:induction false} GroupedFrom(s: string, i: nat, k: nat)
    requires k < |s|
    ensures DigitAt(s, i, k, k + (Spaces(i + k) - Spaces(i)) + if SpaceBefore(i) then 1 else 0)
    decreases k
  {
    if k == 0 {
      assert Grouped(s, i) == Head(s, i) + Grouped(s[1..], i + 1);
    } else {
      GroupedFrom(s[1..], i + 1, k - 1);
      ShiftDigit(s, i, k, k - 1 + (Spaces(i + k) - Spaces(i + 1)) + if SpaceBefore(i + 1) then 1 else 0);
      SpacesStep(i);
    }
  }

  /** Groups of four: digit k comes after k / 4 spaces, the last of them right before every fourth digit. */
  lemma GroupedAt(pk: seq<Byte>, k: nat)
    requires k < 2 * |pk|
    ensures k + k / 4 < |PkToFingerprint(pk)| && PkToFingerprint(pk)[k + k / 4] == Hex(pk)[k]
    ensures k > 0 && k % 4 == 0 ==> PkToFingerprint(pk)[k + k / 4 - 1] == ' '
  {
    GroupedFrom(Hex(pk), 0, k);
  }
}

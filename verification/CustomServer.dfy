/**
 Reading server settings out of the program's own file name, such as
 `name-host=a.b,key=k,.exe`. Names are compared in lower case; the place of `host=` is found as
 a byte offset in the lower-cased name and used as one in the name itself.
 */
module CustomServer {
  import opened Wrappers

  /**
   Lower case as far as it can match the ASCII text compared with here: the capital letters and
   the Kelvin sign are all that become one of its characters.
   */
  function LowerChar(c: char): char {
    if 'A' <= c <= 'Z' then c - 'A' + 'a' else if c == '\U{212A}' then 'k' else c
  }

  /** Ignoring letter case. */
  predicate StartsWith(s: string, name: string) {
    |s| >= |name| && forall i :: 0 <= i < |name| ==> LowerChar(s[i]) == name[i]
  }

  predicate EndsWith(s: string, tail: string) {
    |s| >= |tail| && StartsWith(s[|s| - |tail|..], tail)
  }

  const HOST := "host="
  const KEY := "key="
  const API := "api="
  const RELAY := "relay="

  predicate IsName(name: string) {
    name == HOST || name == KEY || name == API || name == RELAY
  }

  /** The file name without its extension, which may be doubled. */
  function Stem(s: string): string {
    if EndsWith(s, ".exe.exe") then s[..|s| - 8]
    else if EndsWith(s, ".exe") then s[..|s| - 4]
    else s
  }

  /** Where the first `host=` is. */
  function FindHost(s: string): (p: Option<nat>)
    ensures p.Some? ==> p.value <= |s|
  {
    if StartsWith(s, HOST) then Some(0)
    else if s == "" then None
    else
      var p := FindHost(s[1..]);
      if p.Some? then Some(p.value + 1) else None
  }

  // ---- byte offsets ----

  /** The bytes of a character in UTF-8. */
  function Width(c: char): (n: nat)
    ensures n > 0
  {
    if c < '\U{80}' then 1 else if c < '\U{800}' then 2 else if c < '\U{10000}' then 3 else 4
  }

  /** The bytes of a string, given those of each character: its own, or those of its lower case. */
  function ByteLength(width: char -> nat, s: string): nat {
    if s == "" then 0 else width(s[0]) + ByteLength(width, s[1..])
  }

  /** The character that starts at a byte offset, if one does. */
  function CharIndex(s: string, offset: nat): (q: Option<nat>)
    ensures q.Some? ==> q.value <= |s|
  {
    if offset == 0 then Some(0)
    else if s == "" || Width(s[0]) > offset then None
    else
      var q := CharIndex(s[1..], offset - Width(s[0]));
      if q.Some? then Some(q.value + 1) else None
  }

  /** Put a character before the first part, or start a new part with a comma. */
  function Push(c: char, parts: seq<string>): (r: seq<string>)
    requires parts != []
    ensures r != []
  {
    if c == ',' then [""] + parts else [[c] + parts[0]] + parts[1..]
  }

  function SplitComma(s: string): (parts: seq<string>)
    ensures parts != []
  {
    if s == "" then [""] else Push(s[0], SplitComma(s[1..]))
  }

  /** The text after the name in the last part that starts with it. */
  function Value(parts: seq<string>, name: string): string
    decreases |parts|
  {
    if parts == [] then ""
    else
      var n := |parts| - 1;
      if StartsWith(parts[n], name) then parts[n][|name|..] else Value(parts[..n], name)
  }

  datatype Settings = Settings(host: string, key: string, api: string, relay: string)

  /** Settings by name, a name to be decoded as a licence string, or a slice off a character boundary. */
  datatype Parsed = ByName(settings: Settings) | LicenceString(stem: string) | Crash

  /** lowered gives the bytes of a character's lower case. */
  function Parse(lowered: char -> nat, s: string): Parsed {
    var stem := Stem(s);
    var p := FindHost(stem);
    if p.None? then LicenceString(stem)
    else
      var q := CharIndex(stem, ByteLength(lowered, stem[..p.value]));
      if q.None? then Crash
      else
        var parts := SplitComma(stem[q.value..]);
        ByName(Settings(Value(parts, HOST), Value(parts, KEY), Value(parts, API), Value(parts, RELAY)))
  }

  method GetCustomServerFromString(lowered: char -> nat, name: string) returns (r: Parsed)
    ensures r == Parse(lowered, name)
  {
    var s := Stem(name);
    var p := FindHost(s);
    if p.None? {
      return LicenceString(s);
    }
    var q := CharIndex(s, ByteLength(lowered, s[..p.value]));
    if q.None? {
      return Crash;
    }
    var strs := SplitComma(s[q.value..]);
    var host, key, api, relay := "", "", "", "";
    for i := 0 to |strs|
      invariant host == Value(strs[..i], HOST) && key == Value(strs[..i], KEY)
      invariant api == Value(strs[..i], API) && relay == Value(strs[..i], RELAY)
    {
      assert strs[..i + 1][..i] == strs[..i];
      var el := strs[i];
      if StartsWith(el, HOST) {
        host := el[5..];
      }
      if StartsWith(el, KEY) {
        key := el[4..];
      }
      if StartsWith(el, API) {
        api := el[4..];
      }
      if StartsWith(el, RELAY) {
        relay := el[6..];
      }
    }
    assert strs[..|strs|] == strs;
    r := ByName(Settings(host, key, api, relay));
  }

  // ---- letter case ----

  /** A character as printed for one of a name: itself, or its capital, or the Kelvin sign for a k. */
  predicate SpellsChar(c: char, n: char) {
    c == n || ('a' <= n <= 'z' && c == n - 'a' + 'A') || (n == 'k' && c == '\U{212A}')
  }

  predicate Spells(spelling: string, name: string) {
    |spelling| == |name| && forall i :: 0 <= i < |name| ==> SpellsChar(spelling[i], name[i])
  }

  /** ASCII without capitals, as all the text that is compared with. */
  predicate LowerAscii(name: string) {
    forall i :: 0 <= i < |name| ==> name[i] < '\U{80}' && !('A' <= name[i] <= 'Z')
  }

  lemma LowerCharMeaning(c: char, n: char)
    requires n < '\U{80}' && !('A' <= n <= 'Z')
    ensures LowerChar(c) == n <==> SpellsChar(c, n)
  {
  }

  /** A text starts with a name exactly if its first characters spell it. */
  lemma StartsWithMeaning(s: string, name: string)
    requires LowerAscii(name)
    ensures StartsWith(s, name) <==> |s| >= |name| && Spells(s[..|name|], name)
  {
    if |s| >= |name| {
      forall i | 0 <= i < |name|
        ensures LowerChar(s[i]) == name[i] <==> SpellsChar(s[..|name|][i], name[i])
      {
        LowerCharMeaning(s[i], name[i]);
      }
    }
  }

  lemma EndsWithMeaning(s: string, tail: string)
    requires LowerAscii(tail)
    ensures EndsWith(s, tail) <==> |s| >= |tail| && Spells(s[|s| - |tail|..], tail)
  {
    if |s| >= |tail| {
      StartsWithMeaning(s[|s| - |tail|..], tail);
      assert s[|s| - |tail|..][..|tail|] == s[|s| - |tail|..];
    }
  }

  /** What is taken off the end: a doubled extension, else a single one, in any letter case. */
  lemma StemMeaning(s: string)
    ensures Stem(s) ==
            if |s| >= 8 && Spells(s[|s| - 8..], ".exe.exe") then s[..|s| - 8]
            else if |s| >= 4 && Spells(s[|s| - 4..], ".exe") then s[..|s| - 4]
            else s
  {
    EndsWithMeaning(s, ".exe.exe");
    EndsWithMeaning(s, ".exe");
  }

  /** The place found is the first one that spells `host=`. */
  lemma {:induction false} FindHostMeaning(s: string)
    ensures var p := FindHost(s);
            && (p.Some? ==> |s| >= p.value + 5 && Spells(s[p.value..][..5], "host="))
            && forall i :: 0 <= i < (if p.Some? then p.value else |s|) && i + 5 <= |s| ==> !Spells(s[i..][..5], "host=")
  {
    StartsWithMeaning(s, HOST);
    assert s[0..] == s;
    if s == "" {
    } else if !StartsWith(s, HOST) {
      FindHostMeaning(s[1..]);
      forall i | 1 <= i <= |s|
        ensures s[i..] == s[1..][i - 1..]
      {
      }
    }
  }

  /** Without any `host=` the name is left to be decoded as a licence string. */
  lemma NoHostNoSettings(lowered: char -> nat, s: string)
    ensures Parse(lowered, s) == LicenceString(Stem(s)) <==> FindHost(Stem(s)).None?
  {
  }

  // ---- where the slice starts ----

  /** The lengths of UTF-8: up to 7, 11 and 16 bits in one, two and three bytes. */
  lemma WidthMeaning(c: char)
    ensures Width(c) == 1 <==> c as int < 128
    ensures Width(c) <= 2 <==> c as int < 2048
    ensures Width(c) <= 3 <==> c as int < 65536
    ensures Width(c) <= 4
  {
  }

  /** A character starts at an offset exactly if the characters before it have as many bytes. */
  lemma {:induction false} CharIndexMeaning(s: string, offset: nat, k: nat)
    requires k <= |s|
    ensures CharIndex(s, offset) == Some(k) <==> ByteLength(Width, s[..k]) == offset
  {
    if k == 0 {
    } else {
      assert s[..k][1..] == s[1..][..k - 1];
      if Width(s[0]) <= offset {
        CharIndexMeaning(s[1..], offset - Width(s[0]), k - 1);
      }
    }
  }

  /** The slice starts at the character where the lower-cased bytes before `host=` end, if there is one. */
  lemma OffsetDecides(lowered: char -> nat, s: string, p: nat)
    requires FindHost(Stem(s)) == Some(p)
    ensures forall q :: 0 <= q <= |Stem(s)| && ByteLength(Width, Stem(s)[..q]) == ByteLength(lowered, Stem(s)[..p]) ==>
              var parts := SplitComma(Stem(s)[q..]);
              Parse(lowered, s) ==
              ByName(Settings(Value(parts, "host="), Value(parts, "key="),
                              Value(parts, "api="), Value(parts, "relay=")))
    ensures (forall q :: 0 <= q <= |Stem(s)| ==>
               ByteLength(Width, Stem(s)[..q]) != ByteLength(lowered, Stem(s)[..p])) ==> Parse(lowered, s) == Crash
  {
    var stem := Stem(s);
    var offset := ByteLength(lowered, stem[..p]);
    forall q | 0 <= q <= |stem|
      ensures CharIndex(stem, offset) == Some(q) <==> ByteLength(Width, stem[..q]) == offset
    {
      CharIndexMeaning(stem, offset, q);
    }
  }

  /** Lower-casing keeps the prefix's number of bytes. */
  predicate SameOffset(lowered: char -> nat, prefix: string) {
    ByteLength(lowered, prefix) == ByteLength(Width, prefix)
  }

  predicate IsAscii(s: string) {
    forall i :: 0 <= i < |s| ==> s[i] < '\U{80}'
  }

  /** ASCII characters stay one byte long. */
  ghost predicate KeepsAscii(lowered: char -> nat) {
    forall c :: c < '\U{80}' ==> lowered(c) == 1
  }

  lemma {:induction false} AsciiSameOffset(lowered: char -> nat, prefix: string)
    requires KeepsAscii(lowered) && IsAscii(prefix)
    ensures SameOffset(lowered, prefix)
  {
    if prefix == "" {
    } else {
      assert prefix[0] < '\U{80}';
      AsciiSameOffset(lowered, prefix[1..]);
    }
  }

  // ---- printing a file name ----

  predicate NoComma(s: string) {
    forall i :: 0 <= i < |s| ==> s[i] != ','
  }

  function Join(parts: seq<string>): string {
    if parts == [] then "" else if |parts| == 1 then parts[0] else parts[0] + "," + Join(parts[1..])
  }

  lemma {:induction false} SplitPrefix(a: string, rest: string)
    requires NoComma(a)
    ensures SplitComma(a + rest) == [a + SplitComma(rest)[0]] + SplitComma(rest)[1..]
  {
    if a == "" {
      assert a + rest == rest;
      assert a + SplitComma(rest)[0] == SplitComma(rest)[0];
    } else {
      SplitPrefix(a[1..], rest);
      assert (a + rest)[1..] == a[1..] + rest;
      assert [a[0]] + (a[1..] + SplitComma(rest)[0]) == a + SplitComma(rest)[0];
    }
  }

  lemma {:induction false} SplitJoin(parts: seq<string>)
    requires parts != [] && forall i :: 0 <= i < |parts| ==> NoComma(parts[i])
    ensures SplitComma(Join(parts)) == parts
  {
    if |parts| == 1 {
      SplitPrefix(parts[0], "");
      assert parts[0] + "" == parts[0];
      assert SplitComma("") == [""];
      assert parts == [parts[0]] + [""][1..];
    } else {
      var rest := "," + Join(parts[1..]);
      SplitJoin(parts[1..]);
      assert rest[1..] == Join(parts[1..]);
      assert SplitComma(rest) == [""] + parts[1..];
      SplitPrefix(parts[0], rest);
      assert parts[0] + "," + Join(parts[1..]) == parts[0] + rest;
      assert parts[0] + "" == parts[0];
    }
  }

  /** `host=` does not overlap itself. */
  lemma NoOverlap(prefix: string, rest: string)
    requires prefix != "" && !StartsWith(prefix, HOST) && StartsWith(rest, HOST)
    ensures !StartsWith(prefix + rest, HOST)
  {
    var s := prefix + rest;
    if |prefix| >= 5 {
      assert forall i :: 0 <= i < 5 ==> s[i] == prefix[i];
    } else {
      assert s[|prefix|] == rest[0];
      assert LowerChar(rest[0]) == 'h';
      assert HOST[|prefix|] != 'h';
    }
  }

  /** Where the prefix has no `host=`, the first one is the one after it. */
  lemma {:induction false} FindAfterPrefix(prefix: string, rest: string)
    requires FindHost(prefix) == None && StartsWith(rest, HOST)
    ensures FindHost(prefix + rest) == Some(|prefix|)
  {
    var s := prefix + rest;
    if prefix == "" {
      assert s == rest;
    } else {
      NoOverlap(prefix, rest);
      assert s[1..] == prefix[1..] + rest;
      FindAfterPrefix(prefix[1..], rest);
    }
  }

  predicate IsExtension(ext: string) {
    ext == "" || Spells(ext, ".exe") || Spells(ext, ".exe.exe")
  }

  lemma ExeExeEndsInExe(s: string)
    requires EndsWith(s, ".exe.exe")
    ensures EndsWith(s, ".exe") && EndsWith(s[..|s| - 4], ".exe")
  {
  }

  lemma EndsInExtension(body: string, ext: string, tail: string)
    requires LowerAscii(tail) && Spells(ext, tail)
    ensures EndsWith(body + ext, tail)
  {
    assert (body + ext)[|body|..] == ext;
    EndsWithMeaning(body + ext, tail);
  }

  lemma StemOfName(body: string, ext: string)
    requires !EndsWith(body, ".exe") && IsExtension(ext)
    ensures Stem(body + ext) == body
  {
    var s := body + ext;
    assert s[..|body|] == body;
    if ext == "" {
      assert s == body;
      if EndsWith(s, ".exe.exe") {
        ExeExeEndsInExe(s);
      }
    } else if Spells(ext, ".exe") {
      EndsInExtension(body, ext, ".exe");
      if EndsWith(s, ".exe.exe") {
        ExeExeEndsInExe(s);
      }
    } else {
      EndsInExtension(body, ext, ".exe.exe");
    }
  }

  /** Any parts after a prefix that keeps its number of bytes are read back as they are. */
  lemma ParsePrinted(lowered: char -> nat, prefix: string, parts: seq<string>, ext: string)
    requires FindHost(prefix) == None && IsExtension(ext) && SameOffset(lowered, prefix)
    requires parts != [] && StartsWith(parts[0], HOST) && forall i :: 0 <= i < |parts| ==> NoComma(parts[i])
    requires !EndsWith(prefix + Join(parts), ".exe")
    ensures Parse(lowered, prefix + Join(parts) + ext) ==
            ByName(Settings(Value(parts, HOST), Value(parts, KEY), Value(parts, API), Value(parts, RELAY)))
  {
    var body := prefix + Join(parts);
    StemOfName(body, ext);
    JoinStarts(parts, HOST);
    FindAfterPrefix(prefix, Join(parts));
    assert body[..|prefix|] == prefix && body[|prefix|..] == Join(parts);
    CharIndexMeaning(body, ByteLength(lowered, prefix), |prefix|);
    SplitJoin(parts);
  }

  lemma JoinStarts(parts: seq<string>, name: string)
    requires parts != [] && StartsWith(parts[0], name)
    ensures StartsWith(Join(parts), name)
  {
  }

  // ---- named fields ----

  /** A field as printed: its name, spelled in any letter case, and its value. */
  datatype Field = Field(name: string, spelling: string, value: string)

  predicate ValidField(f: Field) {
    IsName(f.name) && Spells(f.spelling, f.name) && NoComma(f.value)
  }

  function Parts(fields: seq<Field>): (ps: seq<string>)
    ensures |ps| == |fields| && forall i :: 0 <= i < |fields| ==> ps[i] == fields[i].spelling + fields[i].value
  {
    seq(|fields|, i requires 0 <= i < |fields| => fields[i].spelling + fields[i].value)
  }

  predicate StartsNoField(s: string) {
    !StartsWith(s, HOST) && !StartsWith(s, KEY) && !StartsWith(s, API) && !StartsWith(s, RELAY)
  }

  /** A printed field starts its own name and no other. */
  lemma FieldStarts(f: Field, name: string)
    requires ValidField(f) && IsName(name)
    ensures StartsWith(f.spelling + f.value, name) <==> f.name == name
    ensures NoComma(f.spelling + f.value)
    ensures |f.spelling| > 0 && f.spelling[|f.spelling| - 1] == '='
  {
    var s := f.spelling + f.value;
    NameShape(f.name);
    NameShape(name);
    StartsWithMeaning(s, f.name);
    StartsWithMeaning(s, name);
    assert s[..|f.name|] == f.spelling;
    if f.name != name {
      NamesDiffer(f.name, name);
    }
    SpellingHasNoComma(f.spelling, f.name);
  }

  lemma SpellingHasNoComma(spelling: string, name: string)
    requires Spells(spelling, name) && NoComma(name)
    ensures NoComma(spelling)
  {
  }

  lemma NameShape(a: string)
    requires IsName(a)
    ensures a != "" && a[|a| - 1] == '=' && NoComma(a) && LowerAscii(a)
  {
  }

  /** No two names begin alike. */
  lemma NamesDiffer(a: string, b: string)
    requires IsName(a) && IsName(b) && a != b
    ensures forall c :: SpellsChar(c, a[0]) ==> !SpellsChar(c, b[0])
  {
  }

  /** A part that starts no field, and what follows a field, do not change its value. */
  lemma {:induction false} ValueOfLast(parts: seq<string>, name: string, i: nat)
    requires i < |parts| && StartsWith(parts[i], name)
    requires forall j :: i < j < |parts| ==> !StartsWith(parts[j], name)
    ensures Value(parts, name) == parts[i][|name|..]
    decreases |parts|
  {
    if i == |parts| - 1 {
    } else {
      ValueOfLast(parts[..|parts| - 1], name, i);
    }
  }

  lemma {:induction false} ValueOfNone(parts: seq<string>, name: string)
    requires forall j :: 0 <= j < |parts| ==> !StartsWith(parts[j], name)
    ensures Value(parts, name) == ""
    decreases |parts|
  {
    if parts == [] {
    } else {
      ValueOfNone(parts[..|parts| - 1], name);
    }
  }

  predicate OncePerName(fields: seq<Field>) {
    forall i, j :: 0 <= i < j < |fields| ==> fields[i].name != fields[j].name
  }

  /** What one named field should be read as: its value if printed, else empty. */
  ghost predicate ReadsAs(fields: seq<Field>, name: string, value: string) {
    && (forall i :: 0 <= i < |fields| && Names(fields, i, name) ==> value == fields[i].value)
    && ((forall i :: 0 <= i < |fields| ==> !Names(fields, i, name)) ==> value == "")
  }

  lemma FieldReadBack(fields: seq<Field>, junk: seq<string>, name: string)
    requires IsName(name)
    requires forall i :: 0 <= i < |fields| ==> ValidField(fields[i])
    requires OncePerName(fields)
    requires forall i :: 0 <= i < |junk| ==> StartsNoField(junk[i])
    ensures ReadsAs(fields, name, Value(Parts(fields) + junk, name))
  {
    var parts := Parts(fields) + junk;
    forall j | 0 <= j < |parts|
      ensures StartsWith(parts[j], name) <==> Names(fields, j, name)
    {
      PartNames(fields, junk, name, j);
    }
    if i :| 0 <= i < |parts| && Names(fields, i, name) {
      ValueOfLast(parts, name, i);
      assert parts[i][|name|..] == fields[i].value;
    } else {
      ValueOfNone(parts, name);
      assert forall i :: 0 <= i < |fields| ==> !Names(fields, i, name);
    }
  }

  lemma PartNames(fields: seq<Field>, junk: seq<string>, name: string, j: nat)
    requires IsName(name) && j < |Parts(fields) + junk|
    requires forall i :: 0 <= i < |fields| ==> ValidField(fields[i])
    requires forall i :: 0 <= i < |junk| ==> StartsNoField(junk[i])
    ensures StartsWith((Parts(fields) + junk)[j], name) <==> Names(fields, j, name)
  {
    if j < |fields| {
      FieldStarts(fields[j], name);
    } else {
      assert (Parts(fields) + junk)[j] == junk[j - |fields|];
    }
  }

  /** The i-th field has this name. */
  predicate Names(fields: seq<Field>, i: nat, name: string) {
    i < |fields| && fields[i].name == name
  }

  /** Text before a separator does not make a short tail end in `.exe`. */
  lemma EndsInTail(before: string, sep: char, tail: string)
    requires sep == '=' || sep == ','
    requires !EndsWith(tail, ".exe")
    ensures !EndsWith(before + [sep] + tail, ".exe")
  {
    var s := before + [sep] + tail;
    if |tail| >= 4 {
      assert s[|s| - 4..] == tail[|tail| - 4..];
    } else if |s| >= 4 {
      assert s[|s| - 4..][3 - |tail|] == sep;
      assert LowerChar(sep) !in ".exe";
    }
  }

  /** The text after the last separator of a printed name. */
  function Tail(fields: seq<Field>, junk: seq<string>): string
    requires fields != []
  {
    if junk == [] then fields[|fields| - 1].value else junk[|junk| - 1]
  }

  lemma {:induction false} JoinLast(parts: seq<string>)
    requires parts != []
    ensures Join(parts) == (if |parts| == 1 then "" else Join(parts[..|parts| - 1]) + ",") + parts[|parts| - 1]
  {
    if |parts| == 1 {
    } else {
      JoinLast(parts[1..]);
      var n := |parts| - 1;
      if n > 1 {
        assert parts[1..][..n - 1] == parts[..n][1..];
      } else {
        assert parts[..1] == [parts[0]];
      }
    }
  }

  lemma Reassociate(a: string, b: string, c: string, d: string)
    ensures a + (b + (c + d)) == (a + b + c) + d
    ensures a + (b + c) == (a + b) + c
  {
  }

  lemma NameDoesNotEndInExe(prefix: string, fields: seq<Field>, junk: seq<string>)
    requires fields != [] && forall i :: 0 <= i < |fields| ==> ValidField(fields[i])
    requires !EndsWith(Tail(fields, junk), ".exe")
    ensures !EndsWith(prefix + Join(Parts(fields) + junk), ".exe")
  {
    var parts := Parts(fields) + junk;
    var n := |parts| - 1;
    JoinLast(parts);
    if junk == [] {
      var f := fields[|fields| - 1];
      assert parts[n] == f.spelling + f.value;
      FieldStarts(f, HOST);
      LastFieldNotExe(prefix, if n == 0 then "" else Join(parts[..n]) + ",", f);
    } else {
      assert parts[n] == junk[|junk| - 1];
      Reassociate(prefix, Join(parts[..n]), ",", parts[n]);
      EndsInTail(prefix + Join(parts[..n]), ',', parts[n]);
      assert prefix + (Join(parts[..n]) + "," + parts[n]) == prefix + Join(parts[..n]) + [','] + parts[n];
    }
  }

  lemma LastFieldNotExe(prefix: string, before: string, f: Field)
    requires f.spelling != "" && f.spelling[|f.spelling| - 1] == '=' && !EndsWith(f.value, ".exe")
    ensures !EndsWith(prefix + (before + (f.spelling + f.value)), ".exe")
  {
    var name := f.spelling[..|f.spelling| - 1];
    EndsInTail(prefix + before + name, '=', f.value);
    assert f.spelling == name + ['='];
    assert prefix + (before + (f.spelling + f.value)) == prefix + before + name + ['='] + f.value;
  }

  /**
   A printed file name is read back exactly: any prefix without `host=` that keeps its number of
   bytes in lower case, as one of ASCII characters does, the host field first
   and the others in any order, names in any letter case, then any further comma-separated
   text that starts no field, then the extension once, twice or not at all.
   */
  lemma FileNameRoundTrip(lowered: char -> nat, prefix: string, fields: seq<Field>, junk: seq<string>, ext: string)
    requires FindHost(prefix) == None && IsExtension(ext) && SameOffset(lowered, prefix)
    requires fields != [] && fields[0].name == HOST
    requires forall i :: 0 <= i < |fields| ==> ValidField(fields[i])
    requires OncePerName(fields)
    requires forall i :: 0 <= i < |junk| ==> NoComma(junk[i]) && StartsNoField(junk[i])
    requires !EndsWith(Tail(fields, junk), ".exe")
    ensures var r := Parse(lowered, prefix + Join(Parts(fields) + junk) + ext);
            && r.ByName?
            && ReadsAs(fields, HOST, r.settings.host) && ReadsAs(fields, KEY, r.settings.key)
            && ReadsAs(fields, API, r.settings.api) && ReadsAs(fields, RELAY, r.settings.relay)
  {
    var parts := Parts(fields) + junk;
    forall i | 0 <= i < |parts|
      ensures NoComma(parts[i])
    {
      if i < |fields| {
        FieldStarts(fields[i], HOST);
      }
    }
    FieldStarts(fields[0], HOST);
    NameDoesNotEndInExe(prefix, fields, junk);
    ParsePrinted(lowered, prefix, parts, ext);
    FieldReadBack(fields, junk, HOST);
    FieldReadBack(fields, junk, KEY);
    FieldReadBack(fields, junk, API);
    FieldReadBack(fields, junk, RELAY);
  }

  /** All four settings in capitals, and the extension. */
  lemma CapitalsAreRead(lowered: char -> nat, host: string, key: string, api: string, relay: string)
    requires NoComma(host) && NoComma(key) && NoComma(api) && NoComma(relay) && !EndsWith(relay, ".exe")
    ensures Parse(lowered, Join(["HOST=" + host, "KEY=" + key, "API=" + api, "RELAY=" + relay]) + ".EXE") ==
            ByName(Settings(host, key, api, relay))
  {
    var fields := [Field("host=", "HOST=", host), Field("key=", "KEY=", key),
                   Field("api=", "API=", api), Field("relay=", "RELAY=", relay)];
    var parts := ["HOST=" + host, "KEY=" + key, "API=" + api, "RELAY=" + relay];
    assert Parts(fields) + [] == parts;
    assert "" + Join(parts) == Join(parts);
    FileNameRoundTrip(lowered, "", fields, [], ".EXE");
    assert Names(fields, 0, HOST) && Names(fields, 1, KEY) && Names(fields, 2, API) && Names(fields, 3, RELAY);
  }

  // ---- prefixes that do not keep their number of bytes ----

  lemma {:induction false} FindNoneInSuffix(s: string, q: nat)
    requires FindHost(s) == None && q <= |s|
    ensures FindHost(s[q..]) == None
  {
    if q == 0 {
      assert s[0..] == s;
    } else {
      FindNoneInSuffix(s[1..], q - 1);
      assert s[1..][q - 1..] == s[q..];
    }
  }

  /** No piece of a text without `host=` starts with it. */
  lemma {:induction false} PiecesStartNoHost(s: string)
    requires FindHost(s) == None
    ensures SplitComma(s)[0] <= s
    ensures forall i :: 0 <= i < |SplitComma(s)| ==> !StartsWith(SplitComma(s)[i], HOST)
  {
    if s == "" {
    } else {
      PiecesStartNoHost(s[1..]);
      var rest := SplitComma(s[1..]);
      if s[0] != ',' {
        var first := [s[0]] + rest[0];
        assert first <= s;
        assert StartsWith(first, HOST) ==> StartsWith(s, HOST);
      }
    }
  }

  function Last(pieces: seq<string>): string
    requires pieces != []
  {
    pieces[|pieces| - 1]
  }

  /** The last piece of a and the first of b become one. */
  function Glue(a: seq<string>, b: seq<string>): (r: seq<string>)
    requires a != [] && b != []
    ensures |r| == |a| + |b| - 1 && r[|a| - 1] == Last(a) + b[0]
    ensures forall i :: 0 <= i < |a| - 1 ==> r[i] == a[i]
    ensures forall i :: 1 <= i < |b| ==> r[|a| - 1 + i] == b[i]
  {
    a[..|a| - 1] + [Last(a) + b[0]] + b[1..]
  }

  lemma GluePushed(c: char, a: seq<string>, b: seq<string>)
    requires a != [] && b != []
    ensures Glue(Push(c, a), b) == Push(c, Glue(a, b))
  {
    var all, glued := Glue(Push(c, a), b), Push(c, Glue(a, b));
    if c != ',' && |a| == 1 {
      assert [c] + (a[0] + b[0]) == ([c] + a[0]) + b[0];
    }
    assert |all| == |glued|;
    forall i | 0 <= i < |all|
      ensures all[i] == glued[i]
    {
    }
  }

  lemma LastOfPushed(c: char, pieces: seq<string>)
    requires pieces != []
    ensures Last(Push(c, pieces)) == if c != ',' && |pieces| == 1 then [c] + pieces[0] else Last(pieces)
  {
  }

  /** Splitting two texts at once glues what they split into. */
  lemma {:induction false} SplitConcat(s: string, rest: string)
    ensures SplitComma(s + rest) == Glue(SplitComma(s), SplitComma(rest))
  {
    if s == "" {
      assert s + rest == rest;
      GlueEmpty(SplitComma(rest));
    } else {
      SplitConcat(s[1..], rest);
      GluePushed(s[0], SplitComma(s[1..]), SplitComma(rest));
      assert (s + rest)[1..] == s[1..] + rest;
    }
  }

  lemma GlueEmpty(parts: seq<string>)
    requires parts != []
    ensures Glue([""], parts) == parts
  {
    assert "" + parts[0] == parts[0];
  }

  /** The last piece is empty only after a comma. */
  lemma {:induction false} LastPiece(s: string)
    ensures Last(SplitComma(s)) == "" <==> s == "" || s[|s| - 1] == ','
    ensures s != "" && Last(SplitComma(s)) == "" ==> |SplitComma(s)| > 1
  {
    if s == "" {
    } else {
      LastPiece(s[1..]);
      LastOfPushed(s[0], SplitComma(s[1..]));
    }
  }

  /**
   Everything from the only `host=` of a name on: the host is the text up to the first comma,
   and any text without another `host=` may follow.
   */
  predicate OneHost(rest: string) {
    StartsWith(rest, HOST) && FindHost(rest[1..]) == None && |SplitComma(rest)[0]| > |HOST|
  }

  function HostOf(rest: string): (host: string)
    requires OneHost(rest)
    ensures host != ""
  {
    SplitComma(rest)[0][|HOST|..]
  }

  /** A first part that is longer than the name starts as the text does. */
  lemma FirstPartStarts(rest: string)
    requires OneHost(rest)
    ensures StartsWith(SplitComma(rest)[0], HOST)
  {
    FirstPartIsPrefix(rest);
    var first := SplitComma(rest)[0];
    assert forall i :: 0 <= i < |HOST| ==> first[i] == rest[i];
  }

  lemma {:induction false} FirstPartIsPrefix(s: string)
    ensures SplitComma(s)[0] <= s
  {
    if s == "" {
    } else {
      FirstPartIsPrefix(s[1..]);
    }
  }

  /** Of the parts of such a text only the first starts with `host=`. */
  lemma OnlyFirstPart(rest: string)
    requires OneHost(rest)
    ensures forall i :: 1 <= i < |SplitComma(rest)| ==> !StartsWith(SplitComma(rest)[i], HOST)
  {
    PiecesStartNoHost(rest[1..]);
    PushKeepsLater(rest[0], SplitComma(rest[1..]));
  }

  lemma PushKeepsLater(c: char, parts: seq<string>)
    requires parts != [] && forall i :: 0 <= i < |parts| ==> !StartsWith(parts[i], HOST)
    ensures forall i :: 1 <= i < |Push(c, parts)| ==> !StartsWith(Push(c, parts)[i], HOST)
  {
  }

  lemma ExactStart(rest: string)
    requires OneHost(rest)
    ensures Value(SplitComma(rest), HOST) == HostOf(rest)
  {
    FirstPartStarts(rest);
    OnlyFirstPart(rest);
    ValueOfLast(SplitComma(rest), HOST, 0);
  }

  /** A slice that starts early has the host only if the prefix ends in a comma. */
  lemma EarlyStart(before: string, rest: string)
    requires before != "" && FindHost(before) == None && OneHost(rest)
    ensures Value(SplitComma(before + rest), HOST) == (if before[|before| - 1] == ',' then HostOf(rest) else "")
  {
    PiecesStartNoHost(before);
    LastPiece(before);
    FirstPartStarts(rest);
    OnlyFirstPart(rest);
    SplitConcat(before, rest);
    HostAfter(SplitComma(before), SplitComma(rest));
  }

  lemma HostAfter(pieces: seq<string>, own: seq<string>)
    requires pieces != [] && own != [] && StartsWith(own[0], HOST)
    requires forall i :: 0 <= i < |pieces| ==> !StartsWith(pieces[i], HOST)
    requires forall i :: 1 <= i < |own| ==> !StartsWith(own[i], HOST)
    ensures Value(Glue(pieces, own), HOST) == if Last(pieces) == "" then own[0][|HOST|..] else ""
  {
    var parts, n := Glue(pieces, own), |pieces| - 1;
    forall i | n < i < |parts|
      ensures !StartsWith(parts[i], HOST)
    {
      assert parts[i] == own[i - n];
    }
    if Last(pieces) == "" {
      assert "" + own[0] == own[0];
      ValueOfLast(parts, HOST, n);
    } else {
      NoOverlap(Last(pieces), own[0]);
      ValueOfNone(parts, HOST);
    }
  }

  /** A slice that starts late never has it. */
  lemma LateStart(rest: string, k: nat)
    requires OneHost(rest) && 0 < k <= |rest|
    ensures Value(SplitComma(rest[k..]), HOST) == ""
  {
    FindNoneInSuffix(rest[1..], k - 1);
    assert rest[1..][k - 1..] == rest[k..];
    PiecesStartNoHost(rest[k..]);
    ValueOfNone(SplitComma(rest[k..]), HOST);
  }

  lemma SliceConcat(prefix: string, rest: string, q: nat)
    requires q <= |prefix| + |rest|
    ensures q < |prefix| ==>
              && (prefix + rest)[q..] == prefix[q..] + rest
              && prefix[q..] != "" && prefix[q..][|prefix[q..]| - 1] == prefix[|prefix| - 1]
    ensures q >= |prefix| ==> (prefix + rest)[q..] == rest[q - |prefix|..]
  {
  }

  lemma HostInSlice(prefix: string, rest: string, q: nat)
    requires FindHost(prefix) == None && OneHost(rest) && q <= |prefix + rest|
    ensures Value(SplitComma((prefix + rest)[q..]), HOST) == HostOf(rest)
            <==> q == |prefix| || (q < |prefix| && prefix[|prefix| - 1] == ',')
  {
    SliceConcat(prefix, rest, q);
    if q < |prefix| {
      FindNoneInSuffix(prefix, q);
      EarlyStart(prefix[q..], rest);
    } else if q == |prefix| {
      assert rest[0..] == rest;
      ExactStart(rest);
    } else {
      LateStart(rest, q - |prefix|);
    }
  }

  /**
   Where the offset of the lower-cased prefix takes the slice: to `host=` itself, or to a
   character before it when a comma separates the two.
   */
  predicate OffsetHits(lowered: char -> nat, prefix: string) {
    var offset := ByteLength(lowered, prefix);
    || offset == ByteLength(Width, prefix)
    || (prefix != "" && prefix[|prefix| - 1] == ','
        && offset < ByteLength(Width, prefix) && CharIndex(prefix, offset).Some?)
  }

  lemma SliceStart(prefix: string, rest: string, offset: nat)
    ensures var q := CharIndex(prefix + rest, offset);
            && (q == Some(|prefix|) <==> offset == ByteLength(Width, prefix))
            && (q.Some? && q.value < |prefix|
                <==> offset < ByteLength(Width, prefix) && CharIndex(prefix, offset).Some?)
  {
    assert (prefix + rest)[..|prefix|] == prefix;
    CharIndexMeaning(prefix + rest, offset, |prefix|);
    IndexInPrefix(prefix, rest, offset);
  }

  lemma {:induction false} IndexInPrefix(prefix: string, rest: string, offset: nat)
    ensures CharIndex(prefix, offset).Some? ==> CharIndex(prefix + rest, offset) == CharIndex(prefix, offset)
    ensures CharIndex(prefix, offset).Some? ==>
              && offset <= ByteLength(Width, prefix)
              && (offset < ByteLength(Width, prefix) <==> CharIndex(prefix, offset).value < |prefix|)
    ensures CharIndex(prefix + rest, offset).Some? && CharIndex(prefix + rest, offset).value < |prefix| ==>
              CharIndex(prefix, offset).Some?
  {
    if prefix == "" {
      assert prefix + rest == rest;
    } else if offset > 0 && Width(prefix[0]) <= offset {
      assert (prefix + rest)[1..] == prefix[1..] + rest;
      IndexInPrefix(prefix[1..], rest, offset - Width(prefix[0]));
    }
  }

  /** The only host of a name is read exactly if the offset hits, whatever follows it. */
  lemma HostReadBackIff(lowered: char -> nat, prefix: string, rest: string, ext: string)
    requires FindHost(prefix) == None && OneHost(rest)
    requires IsExtension(ext) && !EndsWith(prefix + rest, ".exe")
    ensures var r := Parse(lowered, (prefix + rest) + ext);
            r.ByName? && r.settings.host == HostOf(rest) <==> OffsetHits(lowered, prefix)
  {
    var body := prefix + rest;
    StemOfName(body, ext);
    FindAfterPrefix(prefix, rest);
    assert body[..|prefix|] == prefix;
    var offset := ByteLength(lowered, prefix);
    SliceStart(prefix, rest, offset);
    var q := CharIndex(body, offset);
    if q.Some? {
      HostInSlice(prefix, rest, q.value);
    }
  }

  /** The capital I with a dot is two bytes long and its lower case three: after one, the host is lost. */
  lemma DottedCapitalLosesHost(lowered: char -> nat, rest: string)
    requires lowered('\U{130}') == 3 && OneHost(rest) && !EndsWith(['\U{130}'] + rest, ".exe")
    ensures var r := Parse(lowered, ['\U{130}'] + rest);
            !(r.ByName? && r.settings.host == HostOf(rest))
  {
    var prefix := ['\U{130}'];
    assert prefix[1..] == "";
    assert ByteLength(lowered, prefix) == 3 && ByteLength(Width, prefix) == 2;
    assert FindHost(prefix) == None by {
      assert FindHost("") == None;
    }
    HostReadBackIff(lowered, prefix, rest, "");
    assert (prefix + rest) + "" == prefix + rest;
  }
}

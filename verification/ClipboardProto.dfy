/**
 The wire form of clipboard contents: each item is compressed when that makes it shorter.
 Compression and the UTF-8 coding of strings are library calls; a Codec carries them, and the
 laws used are that each decoder undoes its encoder.
 */
module ClipboardProto {
  import opened Wrappers

  datatype Codec = Codec(
    compress: Bytes -> Bytes,
    decompress: Bytes -> Bytes,
    utf8: string -> Bytes,
    fromUtf8: Bytes -> Option<string>)

  ghost predicate Lawful(c: Codec) {
    && (forall b :: c.decompress(c.compress(b)) == b)
    && (forall s :: c.fromUtf8(c.utf8(s)) == Some(s))
  }

  datatype Image =
    | Rgba(width: nat, height: nat, pixels: Bytes)
    | Png(png: Bytes)
    | Svg(svg: string)

  datatype Data =
    | Text(text: string)
    | Rtf(rtf: string)
    | Html(html: string)
    | ImageData(image: Image)
    | Special(name: string, data: Bytes)
    | FileUrl(urls: seq<string>)
    | NoData

  datatype Format =
    | TextFormat | RtfFormat | HtmlFormat | RgbaFormat | PngFormat | SvgFormat | SpecialFormat | UnknownFormat

  type int32 = x: int | -0x8000_0000 <= x < 0x8000_0000

  datatype Clipboard = Clipboard(compress: bool, content: Bytes, width: int32, height: int32, format: Format,
                                 specialName: string)

  /** A 64-bit size cast to the wire's 32 bits, and back. */
  function ToWire(size: nat): int32 {
    var low := size % 0x1_0000_0000;
    if low < 0x8000_0000 then low else low - 0x1_0000_0000
  }

  function FromWire(w: int32): nat {
    if w < 0 then w + 0x1_0000_0000_0000_0000 else w
  }

  // ---- encoding ----

  /** Content to send, and whether it is compressed: the shorter of the two, the original on a tie. */
  function Packed(c: Codec, bytes: Bytes): (r: (bool, Bytes))
    ensures |r.1| <= |bytes|
    ensures r.0 ==> r.1 == c.compress(bytes)
    ensures !r.0 ==> r.1 == bytes
  {
    var compressed := c.compress(bytes);
    if |compressed| < |bytes| then (true, compressed) else (false, bytes)
  }

  function PlainToProto(c: Codec, s: string, format: Format): Clipboard {
    var (compress, content) := Packed(c, c.utf8(s));
    Clipboard(compress, content, 0, 0, format, "")
  }

  function ImageToProto(c: Codec, image: Image): Clipboard {
    match image
    case Rgba(width, height, pixels) =>
      var (compress, content) := Packed(c, pixels);
      Clipboard(compress, content, ToWire(width), ToWire(height), RgbaFormat, "")
    case Png(png) => Clipboard(false, png, 0, 0, PngFormat, "")
    case Svg(svg) =>
      var (compress, content) := Packed(c, c.utf8(svg));
      Clipboard(compress, content, 0, 0, SvgFormat, "")
  }

  /** When compression does not help, the bytes sent are those of the name. */
  function SpecialToProto(c: Codec, name: string, data: Bytes): Clipboard {
    var compressed := c.compress(data);
    var compress := |compressed| < |data|;
    Clipboard(compress, if compress then compressed else c.utf8(name), 0, 0, SpecialFormat, name)
  }

  function ToProto(c: Codec, d: Data): Option<Clipboard> {
    match d
    case Text(s) => Some(PlainToProto(c, s, TextFormat))
    case Rtf(s) => Some(PlainToProto(c, s, RtfFormat))
    case Html(s) => Some(PlainToProto(c, s, HtmlFormat))
    case ImageData(image) => Some(ImageToProto(c, image))
    case Special(name, data) => Some(SpecialToProto(c, name, data))
    case _ => None
  }

  function CreateMultiClipboards(c: Codec, items: seq<Data>): seq<Clipboard> {
    if items == [] then []
    else
      var rest := CreateMultiClipboards(c, items[1..]);
      var first := ToProto(c, items[0]);
      if first.Some? then [first.value] + rest else rest
  }

  // ---- decoding ----

  function FromClipboard(c: Codec, clip: Clipboard): Option<Data> {
    var data := if clip.compress then c.decompress(clip.content) else clip.content;
    var s := c.fromUtf8(data);
    match clip.format
    case TextFormat => if s.Some? then Some(Text(s.value)) else None
    case RtfFormat => if s.Some? then Some(Rtf(s.value)) else None
    case HtmlFormat => if s.Some? then Some(Html(s.value)) else None
    case RgbaFormat => Some(ImageData(Rgba(FromWire(clip.width), FromWire(clip.height), data)))
    case PngFormat => Some(ImageData(Png(data)))
    case SvgFormat => Some(ImageData(Svg(if s.Some? then s.value else "")))
    case SpecialFormat => Some(Special(clip.specialName, data))
    case UnknownFormat => None
  }

  function FromMultiClipboards(c: Codec, clips: seq<Clipboard>): seq<Data> {
    if clips == [] then []
    else
      var rest := FromMultiClipboards(c, clips[1..]);
      var first := FromClipboard(c, clips[0]);
      if first.Some? then [first.value] + rest else rest
  }

  // ---- round trip ----

  /** A size survives the wire. */
  predicate SizeFits(size: nat) {
    size < 0x8000_0000 || 0x1_0000_0000_0000_0000 - 0x8000_0000 <= size < 0x1_0000_0000_0000_0000
  }

  /** What comes back intact. */
  predicate Faithful(c: Codec, d: Data) {
    match d
    case ImageData(Rgba(width, height, _)) => SizeFits(width) && SizeFits(height)
    case Special(name, data) => |c.compress(data)| < |data| || data == c.utf8(name)
    case _ => true
  }

  predicate Sent(d: Data) {
    !d.FileUrl? && !d.NoData?
  }

  lemma SizeRoundTrip(size: nat)
    ensures FromWire(ToWire(size)) == size <==> SizeFits(size)
  {
  }

  /** One item comes back, and comes back the same exactly if it is faithful. */
  lemma ItemRoundTrip(c: Codec, d: Data)
    requires Lawful(c)
    ensures Sent(d) <==> ToProto(c, d).Some?
    ensures Sent(d) ==> FromClipboard(c, ToProto(c, d).value).Some?
    ensures Sent(d) ==> (FromClipboard(c, ToProto(c, d).value) == Some(d) <==> Faithful(c, d))
  {
    match d
    case Text(s) => UnpackText(c, s);
    case Rtf(s) => UnpackText(c, s);
    case Html(s) => UnpackText(c, s);
    case ImageData(image) =>
      match image {
        case Rgba(width, height, pixels) =>
          Unpack(c, pixels);
          SizeRoundTrip(width);
          SizeRoundTrip(height);
        case Png(_) =>
        case Svg(s) => UnpackText(c, s);
      }
    case Special(name, data) => Unpack(c, data);
    case _ =>
  }

  lemma Unpack(c: Codec, bytes: Bytes)
    requires Lawful(c)
    ensures c.decompress(c.compress(bytes)) == bytes
    ensures var (compressed, content) := Packed(c, bytes);
            (if compressed then c.decompress(content) else content) == bytes
  {
  }

  lemma UnpackText(c: Codec, s: string)
    requires Lawful(c)
    ensures var (compressed, content) := Packed(c, c.utf8(s));
            c.fromUtf8(if compressed then c.decompress(content) else content) == Some(s)
  {
  }

  /** The items that are sent, in order. */
  function Kept(items: seq<Data>): seq<Data> {
    if items == [] then [] else (if Sent(items[0]) then [items[0]] else []) + Kept(items[1..])
  }

  /**
   Decoding what was encoded gives back the sent items in order, one for one, and gives back
   the very same items exactly if each is faithful.
   */
  lemma {:induction false} RoundTrip(c: Codec, items: seq<Data>)
    requires Lawful(c)
    ensures var back := FromMultiClipboards(c, CreateMultiClipboards(c, items));
            && |back| == |Kept(items)|
            && (back == Kept(items) <==> forall d :: d in Kept(items) ==> Faithful(c, d))
  {
    if items == [] {
    } else {
      RoundTrip(c, items[1..]);
      ItemRoundTrip(c, items[0]);
      if Sent(items[0]) {
        var clips := CreateMultiClipboards(c, items);
        assert clips[1..] == CreateMultiClipboards(c, items[1..]);
        var back := FromMultiClipboards(c, clips);
        var kept := Kept(items);
        assert back[1..] == FromMultiClipboards(c, clips[1..]);
        assert kept == [items[0]] + Kept(items[1..]);
        assert kept[1..] == Kept(items[1..]);
        assert back == kept <==> back[0] == kept[0] && back[1..] == kept[1..];
        assert forall d :: d in kept <==> d == items[0] || d in kept[1..];
      } else {
        assert Kept(items) == Kept(items[1..]);
      }
    }
  }

  /** Except for special formats, what is sent is never longer than the original. */
  lemma NeverLonger(c: Codec, d: Data)
    requires Sent(d) && !d.Special?
    ensures |ToProto(c, d).value.content| <= |Original(c, d)|
  {
  }

  function Original(c: Codec, d: Data): Bytes
    requires Sent(d)
  {
    match d
    case Text(s) => c.utf8(s)
    case Rtf(s) => c.utf8(s)
    case Html(s) => c.utf8(s)
    case ImageData(Rgba(_, _, pixels)) => pixels
    case ImageData(Png(png)) => png
    case ImageData(Svg(svg)) => c.utf8(svg)
    case Special(_, data) => data
  }

  /** A special format that does not compress arrives with its name as its data. */
  lemma SpecialArrivesAsName(c: Codec, name: string, data: Bytes)
    requires Lawful(c) && |c.compress(data)| >= |data|
    ensures FromClipboard(c, ToProto(c, Special(name, data)).value) == Some(Special(name, c.utf8(name)))
  {
  }

  /** Text, raw pixels and drawings are sent compressed exactly if that is shorter, and PNG never. */
  lemma CompressedIffShorter(c: Codec, d: Data)
    requires Sent(d) && !d.Special?
    ensures var clip, bytes := ToProto(c, d).value, Original(c, d);
            && (clip.compress <==> |c.compress(bytes)| < |bytes| && !(d.ImageData? && d.image.Png?))
            && clip.content == (if clip.compress then c.compress(bytes) else bytes)
  {
  }

  /** Text that is not UTF-8, and a format not known, are left out; a drawing that is not is empty. */
  lemma Undecodable(c: Codec, clip: Clipboard)
    ensures var bytes := if clip.compress then c.decompress(clip.content) else clip.content;
            && (FromClipboard(c, clip).None? <==>
                  clip.format.UnknownFormat? ||
                  (c.fromUtf8(bytes).None? &&
                     (clip.format.TextFormat? || clip.format.RtfFormat? || clip.format.HtmlFormat?)))
            && (clip.format.SvgFormat? && c.fromUtf8(bytes).None? ==>
                  FromClipboard(c, clip) == Some(ImageData(Svg(""))))
  {
  }

  /** Only raw pixels have a size, and only a special format a name. */
  lemma SizeAndName(c: Codec, d: Data)
    requires Sent(d)
    ensures var clip := ToProto(c, d).value;
            && (!(d.ImageData? && d.image.Rgba?) ==> clip.width == clip.height == 0)
            && clip.specialName == (if d.Special? then d.name else "")
  {
  }

  /** Sizes on the wire: the low 32 bits with their sign, and the sign extended to 64 bits on the way back. */
  lemma WireIs(size: nat, w: int32)
    ensures ToWire(size) as int % 0x1_0000_0000 == size % 0x1_0000_0000
    ensures FromWire(w) == if w >= 0 then w as int else 0x1_0000_0000_0000_0000 + w as int
  {
  }

  /** What any clipboard item received is decoded to. */
  lemma DecodedIs(c: Codec, clip: Clipboard)
    requires FromClipboard(c, clip).Some?
    ensures var bytes := if clip.compress then c.decompress(clip.content) else clip.content;
            match FromClipboard(c, clip).value
            case Text(s) => clip.format.TextFormat? && c.fromUtf8(bytes) == Some(s)
            case Rtf(s) => clip.format.RtfFormat? && c.fromUtf8(bytes) == Some(s)
            case Html(s) => clip.format.HtmlFormat? && c.fromUtf8(bytes) == Some(s)
            case ImageData(Rgba(width, height, pixels)) =>
              clip.format.RgbaFormat? && pixels == bytes
              && width == FromWire(clip.width) && height == FromWire(clip.height)
            case ImageData(Png(png)) => clip.format.PngFormat? && png == bytes
            case ImageData(Svg(s)) =>
              clip.format.SvgFormat? && s == if c.fromUtf8(bytes).Some? then c.fromUtf8(bytes).value else ""
            case Special(name, data) => clip.format.SpecialFormat? && name == clip.specialName && data == bytes
            case _ => false
  {
  }

  /** A message is decoded item by item, those that cannot be left out. */
  lemma {:induction false} DecodedItemwise(c: Codec, clips: seq<Clipboard>, more: seq<Clipboard>)
    ensures FromMultiClipboards(c, clips + more) == FromMultiClipboards(c, clips) + FromMultiClipboards(c, more)
    ensures |clips| == 1 ==>
              var d := FromClipboard(c, clips[0]);
              FromMultiClipboards(c, clips) == if d.Some? then [d.value] else []
    decreases |clips|
  {
    if clips == [] {
      assert clips + more == more;
    } else {
      assert (clips + more)[0] == clips[0] && (clips + more)[1..] == clips[1..] + more;
      DecodedItemwise(c, clips[1..], more);
      if FromClipboard(c, clips[0]).Some? {
        var first, rest := [FromClipboard(c, clips[0]).value], FromMultiClipboards(c, clips[1..]);
        assert first + (rest + FromMultiClipboards(c, more)) == (first + rest) + FromMultiClipboards(c, more);
      }
    }
  }
}

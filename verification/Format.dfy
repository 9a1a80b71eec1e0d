/**
 Newline-delimited, checksummed WAL lines and their sync markers: encoding,
 and the reading of one line.

 The checksum is a parameter: every function here takes the `crc` it frames
 with, and nothing is assumed about it.
 */
module Format {
  import opened Wrappers
  import opened MarkerRule

  type u32 = x: int | 0 <= x < 0x1_0000_0000
  type Crc = bytes -> u32

  const COLON: byte := 58
  const PLUS: byte := 43
  const U64_LIMIT := 0x1_0000_0000_0000_0000

  /** A format's magic, the version its encoder writes, and the name its errors carry. */
  datatype FormatTag = FormatTag(magic: bytes, version: byte, name: string)

  predicate ValidTag(tag: FormatTag) {
    |tag.magic| == 4 && NEWLINE !in tag.magic && tag.version >= 1
  }

  // --- Numbers in lines -------------------------------------------------------------

  function HexDigit(n: nat): byte
    requires n < 16
  {
    if n < 10 then 48 + n else 87 + n
  }

  /** The low `width` hex digits of `n`, lower case. */
  function Hex(n: nat, width: nat): (h: bytes)
    ensures |h| == width
    ensures forall b :: b in h ==> b != NEWLINE && b != COLON && b != PLUS
  {
    if width == 0 then [] else Hex(n / 16, width - 1) + [HexDigit(n % 16)]
  }

  function Decimal(n: nat): (d: bytes)
    ensures d != [] && forall b :: b in d ==> 48 <= b <= 57
  {
    if n < 10 then [48 + n] else Decimal(n / 10) + [48 + n % 10]
  }

  function DigitValue(b: byte, radix: nat): Option<nat> {
    var v := if 48 <= b <= 57 then b - 48
             else if 97 <= b <= 122 then b - 87
             else if 65 <= b <= 90 then b - 55
             else radix;
    if v < radix then Some(v) else None
  }

  function ParseDigits(s: bytes, radix: nat, limit: nat): Option<nat> {
    if s == [] then Some(0)
    else
      match (ParseDigits(s[..|s| - 1], radix, limit), DigitValue(s[|s| - 1], radix))
      case (Some(v), Some(d)) => if v * radix + d < limit then Some(v * radix + d) else None
      case _ => None
  }

  /** Rust's unsigned `from_str_radix`: one leading `+` is accepted, an empty or overlong number is not. */
  function ParseUnsigned(s: bytes, radix: nat, limit: nat): Option<nat> {
    var digits := if s != [] && s[0] == PLUS then s[1..] else s;
    if digits == [] then None else ParseDigits(digits, radix, limit)
  }

  function Pow16(width: nat): nat {
    if width == 0 then 1 else 16 * Pow16(width - 1)
  }

  lemma {:induction false} HexReadsBack(n: nat, width: nat, limit: nat)
    requires n < Pow16(width) && n < limit
    ensures ParseDigits(Hex(n, width), 16, limit) == Some(n)
  {
    if width > 0 {
      HexReadsBack(n / 16, width - 1, limit);
      assert Hex(n, width)[..width - 1] == Hex(n / 16, width - 1);
    }
  }

  lemma {:induction false} DecimalReadsBack(n: nat, limit: nat)
    requires n < limit
    ensures ParseDigits(Decimal(n), 10, limit) == Some(n)
  {
    if n >= 10 {
      DecimalReadsBack(n / 10, limit);
      assert Decimal(n)[..|Decimal(n)| - 1] == Decimal(n / 10);
    } else {
      assert Decimal(n)[..0] == [];
    }
  }

  // --- Encoding --------------------------------------------------------------------------

  function Body(tag: FormatTag, payload: bytes): bytes {
    tag.magic + Hex(tag.version, 2) + payload
  }

  /** A line without its terminator. */
  function LineText(tag: FormatTag, crc: Crc, payload: bytes): bytes {
    Hex(crc(Body(tag, payload)), 8) + [COLON] + Body(tag, payload)
  }

  function EncodeLine(tag: FormatTag, crc: Crc, payload: bytes): bytes {
    LineText(tag, crc, payload) + [NEWLINE]
  }

  const SYNC_MARKER_MIN_VERSION := 2
  const SYNC_MARKER_PREFIX: bytes := [33, 115, 121, 110, 99, 58] // "!sync:"

  function MarkerPayload(durableTo: nat): bytes {
    SYNC_MARKER_PREFIX + Decimal(durableTo)
  }

  // --- Reading one line --------------------------------------------------------------------

  function FindByte(s: bytes, b: byte): (i: nat)
    ensures i <= |s|
    ensures i < |s| ==> s[i] == b
    ensures forall j :: 0 <= j < i ==> s[j] != b
  {
    if s == [] || s[0] == b then 0 else 1 + FindByte(s[1..], b)
  }

  /** The checksummed body of a well-framed line. */
  function FrameBody(crc: Crc, text: bytes): (r: Option<bytes>)
    ensures r.Some? ==> |r.value| >= 6
  {
    var colon := FindByte(text, COLON);
    if colon == |text| || colon != 8 then None
    else
      match ParseUnsigned(text[..8], 16, 0x1_0000_0000)
      case None => None
      case Some(expected) =>
        var body := text[9..];
        if crc(body) != expected || |body| < 6 then None else Some(body)
  }

  function BodyVersion(tag: FormatTag, body: bytes): Result<byte, FormatError>
    requires |body| >= 6
  {
    if body[..4] != tag.magic then Err(PreBaselineFormat(tag.name))
    else
      match ParseUnsigned(body[4..6], 16, 256)
      case None => Err(Malformed(tag.name))
      case Some(version) =>
        if version == 0 || version > tag.version
        then Err(UnsupportedFormatVersion(tag.name, version, tag.version))
        else Ok(version)
  }

  /** A marker payload's claimed offset; an error for a marker whose number does not parse. */
  function ParseMarker(tag: FormatTag, payload: bytes): Result<Option<nat>, FormatError> {
    if !(SYNC_MARKER_PREFIX <= payload) then Ok(None)
    else
      match ParseUnsigned(payload[6..], 10, U64_LIMIT)
      case None => Err(Malformed(tag.name))
      case Some(n) => Ok(Some(n))
  }

  function CheckMarker(tag: FormatTag, start: nat, claimed: nat): Reading {
    if claimed == start then Marker(start) else Fatal(BadSyncMarker(tag.name, start, claimed))
  }

  /** A line met before any bad line. */
  function ReadClean(tag: FormatTag, crc: Crc, line: Line): Reading {
    match FrameBody(crc, line.text)
    case None => Unframed
    case Some(body) =>
      match BodyVersion(tag, body)
      case Err(e) => Fatal(e)
      case Ok(version) =>
        if version < SYNC_MARKER_MIN_VERSION then Record(version, body[6..])
        else
          match ParseMarker(tag, body[6..])
          case Err(e) => Fatal(e)
          case Ok(Some(claimed)) => CheckMarker(tag, line.start, claimed)
          case Ok(None) => Record(version, body[6..])
  }

  /** A line met after the first bad one: only a marker this build understands matters. */
  function ReadPastBad(tag: FormatTag, crc: Crc, line: Line): Reading {
    match FrameBody(crc, line.text)
    case None => Unframed
    case Some(body) =>
      if body[..4] != tag.magic then Skipped
      else
        match ParseUnsigned(body[4..6], 16, 256)
        case None => Skipped
        case Some(version) =>
          if !(SYNC_MARKER_MIN_VERSION <= version <= tag.version) then Skipped
          else
            match ParseMarker(tag, body[6..])
            case Err(e) => Fatal(e)
            case Ok(Some(claimed)) => CheckMarker(tag, line.start, claimed)
            case Ok(None) => Skipped
  }

  // --- Decoding a file -------------------------------------------------------------------------

  function ReaderOf(tag: FormatTag, crc: Crc): Reader {
    Reader(tag.name, line => ReadClean(tag, crc, line), line => ReadPastBad(tag, crc, line))
  }

  lemma ReadersAreCoherent(tag: FormatTag, crc: Crc)
    ensures Coherent(ReaderOf(tag, crc))
  {
  }

  method DecodeLinesExtent(tag: FormatTag, crc: Crc, file: bytes) returns (d: Result<DecodedLines, FormatError>)
    ensures Decides(ReaderOf(tag, crc), file, d)
  {
    ReadersAreCoherent(tag, crc);
    d := ScanLines(ReaderOf(tag, crc), file);
  }

  // --- Written lines read back -------------------------------------------------------------------

  lemma HexParses(n: nat, width: nat, limit: nat)
    requires 0 < width && n < Pow16(width) && n < limit
    ensures ParseUnsigned(Hex(n, width), 16, limit) == Some(n)
  {
    HexReadsBack(n, width, limit);
    assert Hex(n, width)[0] in Hex(n, width);
  }

  lemma DecimalParses(n: nat)
    requires n < U64_LIMIT
    ensures ParseUnsigned(Decimal(n), 10, U64_LIMIT) == Some(n)
  {
    DecimalReadsBack(n, U64_LIMIT);
    assert Decimal(n)[0] in Decimal(n);
  }

  /** The framing of a written line checks out and yields its body. */
  lemma WrittenLineIsFramed(tag: FormatTag, crc: Crc, payload: bytes)
    requires ValidTag(tag)
    ensures FrameBody(crc, LineText(tag, crc, payload)) == Some(Body(tag, payload))
  {
    var text, body := LineText(tag, crc, payload), Body(tag, payload);
    var hex := Hex(crc(body), 8);
    assert text[..8] == hex && text[8] == COLON && text[9..] == body;
    assert forall j :: 0 <= j < 8 ==> text[j] in hex;
    assert FindByte(text, COLON) == 8;
    assert Pow16(8) == 0x1_0000_0000;
    HexParses(crc(body), 8, 0x1_0000_0000);
  }

  lemma WrittenVersion(tag: FormatTag, payload: bytes)
    requires ValidTag(tag)
    ensures var body := Body(tag, payload);
            && |body| >= 6 && body[..4] == tag.magic && body[6..] == payload
            && ParseUnsigned(body[4..6], 16, 256) == Some(tag.version)
  {
    var body := Body(tag, payload);
    assert body[4..6] == Hex(tag.version, 2);
    assert Pow16(2) == 256;
    HexParses(tag.version, 2, 256);
  }

  /** A payload that no marker can be mistaken for. */
  predicate PlainPayload(payload: bytes) {
    NEWLINE !in payload && !(SYNC_MARKER_PREFIX <= payload)
  }

  lemma WrittenRecordReadsBack(tag: FormatTag, crc: Crc, payload: bytes, start: nat)
    requires ValidTag(tag) && PlainPayload(payload)
    ensures ReadClean(tag, crc, Line(start, LineText(tag, crc, payload))) == Record(tag.version, payload)
    ensures ReadPastBad(tag, crc, Line(start, LineText(tag, crc, payload))) == Skipped
  {
    WrittenLineIsFramed(tag, crc, payload);
    WrittenVersion(tag, payload);
  }

  lemma WrittenMarkerReadsBack(tag: FormatTag, crc: Crc, claimed: nat, start: nat)
    requires ValidTag(tag) && tag.version >= SYNC_MARKER_MIN_VERSION && claimed < U64_LIMIT
    ensures var line := Line(start, LineText(tag, crc, MarkerPayload(claimed)));
            ReadClean(tag, crc, line) == ReadPastBad(tag, crc, line) == CheckMarker(tag, start, claimed)
  {
    var payload := MarkerPayload(claimed);
    WrittenLineIsFramed(tag, crc, payload);
    WrittenVersion(tag, payload);
    assert payload[6..] == Decimal(claimed);
    DecimalParses(claimed);
  }

  lemma WrittenTextIsOneLine(tag: FormatTag, crc: Crc, payload: bytes)
    requires ValidTag(tag) && NEWLINE !in payload
    ensures NEWLINE !in LineText(tag, crc, payload) && LineText(tag, crc, payload) != []
  {
  }
}

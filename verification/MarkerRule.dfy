/**
 Torn tail or mid-file corruption: the sync-marker rule over the lines of a
 file, as a declarative rule and as the one-pass scan that decides it.

 How a single line reads is a parameter here, so the rule and the scan are
 about offsets and order alone.
 */
module MarkerRule {
  import opened Wrappers

  type byte = x: int | 0 <= x < 256
  type bytes = seq<byte>

  const NEWLINE: byte := 10

  datatype FormatError =
    | PreBaselineFormat(format: string)
    | UnsupportedFormatVersion(format: string, found: byte, maxSupported: byte)
    | Malformed(format: string)
    | MidFileCorruption(format: string, offset: nat, durableTo: nat)
    | BadSyncMarker(format: string, offset: nat, claimed: nat)

  datatype Line = Line(start: nat, text: bytes)

  // --- The lines of a file --------------------------------------------------------------------

  function LineEnd(file: bytes, pos: nat): (e: nat)
    requires pos <= |file|
    ensures pos <= e <= |file|
    ensures e < |file| ==> file[e] == NEWLINE
    ensures forall i :: pos <= i < e ==> file[i] != NEWLINE
    decreases |file| - pos
  {
    if pos == |file| || file[pos] == NEWLINE then pos else LineEnd(file, pos + 1)
  }

  function NextLine(file: bytes, pos: nat): (n: nat)
    requires pos < |file|
    ensures pos < n <= |file|
  {
    var e := LineEnd(file, pos);
    if e < |file| then e + 1 else |file|
  }

  /** The non-empty lines from `pos` on, each with its offset; the last may lack its terminator. */
  function LinesFrom(file: bytes, pos: nat): (ls: seq<Line>)
    requires pos <= |file|
    decreases |file| - pos
  {
    if pos == |file| then []
    else
      var e := LineEnd(file, pos);
      var rest := LinesFrom(file, NextLine(file, pos));
      if e == pos then rest else [Line(pos, file[pos..e])] + rest
  }

  function Lines(file: bytes): seq<Line> {
    LinesFrom(file, 0)
  }

  predicate Ascending(ls: seq<Line>) {
    forall i, j :: 0 <= i < j < |ls| ==> ls[i].start < ls[j].start
  }

  lemma {:induction false} LinesAscend(file: bytes, pos: nat)
    requires pos <= |file|
    ensures Ascending(LinesFrom(file, pos))
    ensures forall i :: 0 <= i < |LinesFrom(file, pos)| ==> pos <= LinesFrom(file, pos)[i].start < |file|
    decreases |file| - pos
  {
    if pos < |file| {
      LinesAscend(file, NextLine(file, pos));
    }
  }

  // --- Reading lines -------------------------------------------------------------------------

  /** What the decoder makes of one line. */
  datatype Reading =
    Unframed | Record(version: byte, payload: bytes) | Marker(at: nat) | Skipped | Fatal(error: FormatError)

  /** A format's reading of a line before any bad line, and past the first one. */
  datatype Reader = Reader(name: string, clean: Line -> Reading, past: Line -> Reading)

  /** Framing does not depend on the side of the bad line, and a marker sits where it says. */
  predicate CoherentAt(r: Reader, l: Line) {
    && (r.clean(l) == Unframed <==> r.past(l) == Unframed)
    && !r.clean(l).Skipped? && !r.past(l).Record?
    && (r.clean(l).Marker? ==> r.clean(l).at == l.start)
    && (r.past(l).Marker? ==> r.past(l).at == l.start)
    && (r.clean(l).Fatal? ==> !r.clean(l).error.MidFileCorruption?)
    && (r.past(l).Fatal? ==> !r.past(l).error.MidFileCorruption?)
  }

  ghost predicate Coherent(r: Reader) {
    forall l :: CoherentAt(r, l)
  }

  // --- The declarative rule -----------------------------------------------------------------------

  /** The place of the first line whose framing fails, or the number of lines. */
  function FirstBad(r: Reader, ls: seq<Line>): (b: nat)
    ensures b <= |ls|
    ensures b < |ls| ==> r.clean(ls[b]) == Unframed
    ensures forall i :: 0 <= i < b ==> r.clean(ls[i]) != Unframed
  {
    if ls == [] || r.clean(ls[0]) == Unframed then 0 else 1 + FirstBad(r, ls[1..])
  }

  /** How line `i` is read when the first bad line is line `b`. */
  function ReadingAt(r: Reader, ls: seq<Line>, b: nat, i: nat): Reading
    requires i < |ls|
  {
    if i < b then r.clean(ls[i]) else r.past(ls[i])
  }

  /** `e` is the error of the first line, in file order, that is refused by name. */
  ghost predicate FirstNamedError(r: Reader, ls: seq<Line>, b: nat, e: FormatError) {
    exists i :: 0 <= i < |ls| && ReadingAt(r, ls, b, i) == Fatal(e)
      && forall j :: 0 <= j < i ==> !ReadingAt(r, ls, b, j).Fatal?
  }

  ghost predicate NoNamedError(r: Reader, ls: seq<Line>, b: nat) {
    forall i :: 0 <= i < |ls| ==> !ReadingAt(r, ls, b, i).Fatal?
  }

  ghost predicate HasMarker(r: Reader, ls: seq<Line>, b: nat, m: nat) {
    exists i :: 0 <= i < |ls| && ReadingAt(r, ls, b, i) == Marker(m)
  }

  /** `m` is the greatest offset proved durable by a marker. */
  ghost predicate GreatestMarker(r: Reader, ls: seq<Line>, b: nat, m: nat) {
    HasMarker(r, ls, b, m) && forall n: nat :: HasMarker(r, ls, b, n) ==> n <= m
  }

  /** The record payloads of clean lines. */
  function RecordsOf(r: Reader, ls: seq<Line>): seq<(byte, bytes)> {
    if ls == [] then []
    else
      var front := RecordsOf(r, ls[..|ls| - 1]);
      match r.clean(ls[|ls| - 1])
      case Record(version, payload) => front + [(version, payload)]
      case _ => front
  }

  datatype DecodedLines = DecodedLines(lines: seq<(byte, bytes)>, validLen: nat)

  /** Torn tail or mid-file corruption, from the offsets alone. */
  ghost predicate Decides(r: Reader, file: bytes, d: Result<DecodedLines, FormatError>) {
    var ls := Lines(file);
    var b := FirstBad(r, ls);
    match d
    case Err(MidFileCorruption(name, offset, durableTo)) =>
      && name == r.name && NoNamedError(r, ls, b)
      && b < |ls| && offset == ls[b].start && GreatestMarker(r, ls, b, durableTo) && offset < durableTo
    case Err(e) => FirstNamedError(r, ls, b, e)
    case Ok(d) =>
      && NoNamedError(r, ls, b)
      && (b < |ls| ==> forall m: nat :: HasMarker(r, ls, b, m) ==> m <= ls[b].start)
      && d.lines == RecordsOf(r, ls[..b])
      && d.validLen == (if b < |ls| then ls[b].start else |file|)
  }

  // --- The one-pass scanner ---------------------------------------------------------------------------

  /** The scan's variables. */
  datatype Scan = Scan(lines: seq<(byte, bytes)>, firstBad: Option<nat>, durableTo: Option<nat>)

  /** The stored marker is the greatest among the first `k` lines. */
  ghost predicate Tracks(r: Reader, ls: seq<Line>, b: nat, k: nat, durableTo: Option<nat>)
    requires k <= |ls|
  {
    match durableTo
    case None => forall i :: 0 <= i < k ==> !ReadingAt(r, ls, b, i).Marker?
    case Some(m) =>
      && (exists i :: 0 <= i < k && ReadingAt(r, ls, b, i) == Marker(m))
      && (forall i :: 0 <= i < k && ReadingAt(r, ls, b, i).Marker? ==> ReadingAt(r, ls, b, i).at <= m)
  }

  /** The scan's variables after `k` lines. */
  ghost predicate Scanned(r: Reader, ls: seq<Line>, b: nat, k: nat, s: Scan)
    requires k <= |ls| && b <= |ls|
  {
    && s.firstBad == (if k <= b then None else Some(ls[b].start))
    && s.lines == RecordsOf(r, ls[..if k <= b then k else b])
    && (forall i :: 0 <= i < k ==> !ReadingAt(r, ls, b, i).Fatal?)
    && Tracks(r, ls, b, k, s.durableTo)
  }

  function ReadNext(r: Reader, s: Scan, line: Line): Reading {
    if s.firstBad.None? then r.clean(line) else r.past(line)
  }

  function ScanLine(s: Scan, line: Line, reading: Reading): Scan {
    match reading
    case Unframed => if s.firstBad.None? then s.(firstBad := Some(line.start)) else s
    case Record(version, payload) => s.(lines := s.lines + [(version, payload)])
    case Marker(at) => s.(durableTo := Some(at))
    case Skipped => s
    case Fatal(_) => s
  }

  predicate IsFirstBad(r: Reader, ls: seq<Line>, b: nat) {
    && b <= |ls|
    && (b < |ls| ==> r.clean(ls[b]) == Unframed)
    && (forall i :: 0 <= i < b ==> r.clean(ls[i]) != Unframed)
  }

  lemma MarkersAscend(r: Reader, ls: seq<Line>, b: nat, k: nat)
    requires Coherent(r) && Ascending(ls) && k < |ls|
    ensures forall i :: 0 <= i < k && ReadingAt(r, ls, b, i).Marker? ==> ReadingAt(r, ls, b, i).at < ls[k].start
  {
    forall i | 0 <= i < k && ReadingAt(r, ls, b, i).Marker?
      ensures ReadingAt(r, ls, b, i).at < ls[k].start
    {
      assert CoherentAt(r, ls[i]);
    }
  }

  lemma TracksStep(r: Reader, ls: seq<Line>, b: nat, k: nat, durableTo: Option<nat>)
    requires Coherent(r) && Ascending(ls) && k < |ls| && Tracks(r, ls, b, k, durableTo)
    ensures Tracks(r, ls, b, k + 1,
                   if ReadingAt(r, ls, b, k).Marker? then Some(ReadingAt(r, ls, b, k).at) else durableTo)
  {
    assert CoherentAt(r, ls[k]);
    MarkersAscend(r, ls, b, k);
    if ReadingAt(r, ls, b, k).Marker? {
      assert ReadingAt(r, ls, b, k) == Marker(ReadingAt(r, ls, b, k).at);
    } else if durableTo.Some? {
      var i :| 0 <= i < k && ReadingAt(r, ls, b, i) == Marker(durableTo.value);
      assert 0 <= i < k + 1;
    }
  }

  lemma ScanStep(r: Reader, ls: seq<Line>, b: nat, k: nat, s: Scan)
    requires Coherent(r) && Ascending(ls) && IsFirstBad(r, ls, b)
    requires k < |ls| && Scanned(r, ls, b, k, s)
    ensures var reading := ReadNext(r, s, ls[k]);
            if reading.Fatal? then FirstNamedError(r, ls, b, reading.error) && !reading.error.MidFileCorruption?
            else Scanned(r, ls, b, k + 1, ScanLine(s, ls[k], reading))
  {
    assert CoherentAt(r, ls[k]);
    var reading := ReadNext(r, s, ls[k]);
    if reading.Fatal? {
      assert ReadingAt(r, ls, b, k) == Fatal(reading.error);
    } else {
      assert ls[..k + 1][..k] == ls[..k];
      TracksStep(r, ls, b, k, s.durableTo);
    }
  }

  lemma ScanEnds(r: Reader, file: bytes, s: Scan)
    requires Scanned(r, Lines(file), FirstBad(r, Lines(file)), |Lines(file)|, s)
    ensures s.firstBad.Some? && s.durableTo.Some? && s.firstBad.value < s.durableTo.value ==>
              Decides(r, file, Err(MidFileCorruption(r.name, s.firstBad.value, s.durableTo.value)))
    ensures !(s.firstBad.Some? && s.durableTo.Some? && s.firstBad.value < s.durableTo.value) ==>
              Decides(r, file, Ok(DecodedLines(s.lines, if s.firstBad.Some? then s.firstBad.value else |file|)))
  {
    var ls := Lines(file);
    var b := FirstBad(r, ls);
    forall m: nat | HasMarker(r, ls, b, m)
      ensures s.durableTo.Some? && m <= s.durableTo.value
    {
      var i :| 0 <= i < |ls| && ReadingAt(r, ls, b, i) == Marker(m);
    }
    assert ls[..|ls|] == ls;
  }

  lemma NextLineOf(file: bytes, pos: nat, ls: seq<Line>, k: nat)
    requires pos < |file| && k <= |ls| && ls[k..] == LinesFrom(file, pos)
    ensures LineEnd(file, pos) == pos ==> ls[k..] == LinesFrom(file, NextLine(file, pos))
    ensures LineEnd(file, pos) != pos ==> k < |ls| && ls[k] == Line(pos, file[pos..LineEnd(file, pos)])
                                          && ls[k + 1..] == LinesFrom(file, NextLine(file, pos))
  {
    if LineEnd(file, pos) != pos {
      assert ls[k..] == [Line(pos, file[pos..LineEnd(file, pos)])] + LinesFrom(file, NextLine(file, pos));
      assert ls[k..][0] == ls[k] && ls[k + 1..] == ls[k..][1..];
    }
  }

  /** The pass over the lines: the variables after the last one, or the first named error. */
  method ScanAll(r: Reader, file: bytes, ghost ls: seq<Line>, ghost b: nat) returns (out: Result<Scan, FormatError>)
    requires Coherent(r) && ls == LinesFrom(file, 0) && Ascending(ls) && IsFirstBad(r, ls, b)
    ensures out.Ok? ==> Scanned(r, ls, b, |ls|, out.value)
    ensures out.Err? ==> FirstNamedError(r, ls, b, out.error) && !out.error.MidFileCorruption?
  {
    var s := Scan([], None, None);
    var pos := 0;
    ghost var k := 0;
    while pos < |file|
      invariant 0 <= pos <= |file| && k <= |ls| && ls[k..] == LinesFrom(file, pos)
      invariant Scanned(r, ls, b, k, s)
    {
      var start := pos;
      var end := LineEnd(file, pos);
      NextLineOf(file, pos, ls, k);
      pos := NextLine(file, pos);
      if start == end {
        continue;
      }
      var line := Line(start, file[start..end]);
      ScanStep(r, ls, b, k, s);
      var reading := ReadNext(r, s, line);
      if reading.Fatal? {
        return Err(reading.error);
      }
      s := ScanLine(s, line, reading);
      k := k + 1;
    }
    return Ok(s);
  }

  method ScanLines(r: Reader, file: bytes) returns (d: Result<DecodedLines, FormatError>)
    requires Coherent(r)
    ensures Decides(r, file, d)
  {
    LinesAscend(file, 0);
    var out := ScanAll(r, file, Lines(file), FirstBad(r, Lines(file)));
    match out
    case Err(e) => d := Err(e);
    case Ok(s) =>
      ScanEnds(r, file, s);
      if s.firstBad.Some? && s.durableTo.Some? && s.firstBad.value < s.durableTo.value {
        d := Err(MidFileCorruption(r.name, s.firstBad.value, s.durableTo.value));
      } else {
        d := Ok(DecodedLines(s.lines, if s.firstBad.Some? then s.firstBad.value else |file|));
      }
  }

  // --- What the rule promises ---------------------------------------------------------------------------

  /** The rule has at most one verdict for a file. */
  lemma DecidesIsFunctional(r: Reader, file: bytes, d: Result<DecodedLines, FormatError>,
                            d': Result<DecodedLines, FormatError>)
    requires Coherent(r) && Decides(r, file, d) && Decides(r, file, d')
    ensures d == d'
  {
    var ls := Lines(file);
    var b := FirstBad(r, ls);
    forall e: FormatError | FirstNamedError(r, ls, b, e)
      ensures !e.MidFileCorruption?
    {
      var i :| 0 <= i < |ls| && ReadingAt(r, ls, b, i) == Fatal(e);
      assert CoherentAt(r, ls[i]);
    }
  }

  /**
   With no line refused by name, the verdict is corruption exactly when some line is
   bad and a marker sits past the first such line; it then names the first bad
   offset and the greatest proved one.
   */
  lemma CorruptionIffBadBeforeMarker(r: Reader, file: bytes, d: Result<DecodedLines, FormatError>)
    requires Coherent(r) && Decides(r, file, d)
    requires NoNamedError(r, Lines(file), FirstBad(r, Lines(file)))
    ensures var ls := Lines(file);
            var b := FirstBad(r, ls);
            && (d.Err? <==> b < |ls| && exists m: nat :: HasMarker(r, ls, b, m) && ls[b].start < m)
            && (d.Err? ==>
                  exists m: nat :: GreatestMarker(r, ls, b, m) && d.error == MidFileCorruption(r.name, ls[b].start, m))
  {
    var ls := Lines(file);
    var b := FirstBad(r, ls);
    if d.Err? && d.error.MidFileCorruption? {
      assert HasMarker(r, ls, b, d.error.durableTo) && GreatestMarker(r, ls, b, d.error.durableTo);
    }
  }

  lemma ExtentInFile(r: Reader, file: bytes, d: DecodedLines)
    requires Decides(r, file, Ok(d))
    ensures d.validLen <= |file|
  {
    LinesAscend(file, 0);
  }

  /** Whatever a marker proves durable is well framed in a file that decodes. */
  lemma ProvedBytesAreFramed(r: Reader, file: bytes, d: DecodedLines, m: nat, i: nat)
    requires Decides(r, file, Ok(d)) && i < |Lines(file)|
    requires HasMarker(r, Lines(file), FirstBad(r, Lines(file)), m) && Lines(file)[i].start < m
    ensures r.clean(Lines(file)[i]) != Unframed && i < FirstBad(r, Lines(file))
  {
    LinesAscend(file, 0);
    var ls, b := Lines(file), FirstBad(r, Lines(file));
    assert forall j :: b <= j < |ls| ==> ls[b].start <= ls[j].start;
  }

  // --- A line whose text is known --------------------------------------------------------------------------

  lemma {:induction false} LineEndIs(file: bytes, pos: nat, e: nat)
    requires pos <= e <= |file| && (e < |file| ==> file[e] == NEWLINE)
    requires forall i :: pos <= i < e ==> file[i] != NEWLINE
    ensures LineEnd(file, pos) == e
  {
  }

  /** The line at `pos`, when its text is known. */
  lemma FirstLineIs(file: bytes, pos: nat, text: bytes)
    requires pos + |text| <= |file| && file[pos..pos + |text|] == text && NEWLINE !in text && pos < |file|
    requires pos + |text| < |file| ==> file[pos + |text|] == NEWLINE
    ensures LinesFrom(file, pos) ==
            (if text == [] then [] else [Line(pos, text)])
            + LinesFrom(file, if pos + |text| < |file| then pos + |text| + 1 else |file|)
  {
    forall i | pos <= i < pos + |text|
      ensures file[i] != NEWLINE
    {
      assert file[i] == text[i - pos];
    }
    LineEndIs(file, pos, pos + |text|);
  }
}

/**
 Re-framing a WAL file at version 1, which has no sync markers.
 */
module Reframe {
  import opened Wrappers
  import opened MarkerRule
  import opened Format
  import opened WalFile
  import opened CrashRecovery
  import opened WalRuns
  import opened WalWriter

  function V1(tag: FormatTag): FormatTag {
    tag.(version := 1)
  }

  function AtVersion(version: byte, lines: seq<(byte, bytes)>): seq<(byte, bytes)> {
    seq(|lines|, i requires 0 <= i < |lines| => (version, lines[i].1))
  }

  /** A writer of version-1 lines, read under `tag`. */
  function OldWriter(tag: FormatTag, crc: Crc): Writer {
    Writer(ReaderOf(tag, crc), 1, payload => NEWLINE !in payload,
           payload => LineText(V1(tag), crc, payload), _ => [], 0)
  }

  lemma OldLineReadsBack(tag: FormatTag, crc: Crc, payload: bytes, start: nat)
    requires ValidTag(tag)
    ensures ReadClean(tag, crc, Line(start, LineText(V1(tag), crc, payload))) == Record(1, payload)
    ensures ReadPastBad(tag, crc, Line(start, LineText(V1(tag), crc, payload))) == Skipped
  {
    WrittenLineIsFramed(V1(tag), crc, payload);
    WrittenVersion(V1(tag), payload);
  }

  lemma OldWriterIsFaithful(tag: FormatTag, crc: Crc)
    requires ValidTag(tag)
    ensures Faithful(OldWriter(tag, crc))
  {
    var w := OldWriter(tag, crc);
    ReadersAreCoherent(tag, crc);
    forall payload, start: nat
      ensures RecordReadsBack(w, payload, start)
    {
      if w.plain(payload) {
        WrittenTextIsOneLine(V1(tag), crc, payload);
        OldLineReadsBack(tag, crc, payload, start);
      }
    }
  }

  // --- A decoded payload holds no newline -----------------------------------------------------------

  predicate OneLiners(ls: seq<Line>) {
    forall i :: 0 <= i < |ls| ==> NEWLINE !in ls[i].text
  }

  lemma {:induction false} LinesHoldNoNewline(file: bytes, pos: nat)
    requires pos <= |file|
    ensures OneLiners(LinesFrom(file, pos))
    decreases |file| - pos
  {
    if pos < |file| {
      LinesHoldNoNewline(file, NextLine(file, pos));
    }
  }

  lemma {:induction false} RecordsHoldNoNewline(tag: FormatTag, crc: Crc, ls: seq<Line>)
    requires OneLiners(ls)
    ensures forall i :: 0 <= i < |RecordsOf(ReaderOf(tag, crc), ls)| ==>
              NEWLINE !in RecordsOf(ReaderOf(tag, crc), ls)[i].1
    decreases |ls|
  {
    if ls != [] {
      RecordsHoldNoNewline(tag, crc, ls[..|ls| - 1]);
    }
  }

  lemma DecodedHoldNoNewline(tag: FormatTag, crc: Crc, file: bytes, d: DecodedLines)
    requires Decides(ReaderOf(tag, crc), file, Ok(d))
    ensures forall i :: 0 <= i < |d.lines| ==> NEWLINE !in d.lines[i].1
  {
    var ls := Lines(file);
    LinesHoldNoNewline(file, 0);
    RecordsHoldNoNewline(tag, crc, ls[..FirstBad(ReaderOf(tag, crc), ls)]);
  }

  // --- Re-framing --------------------------------------------------------------------------------------

  lemma {:induction false} RecsOfRecItems(payloads: seq<bytes>)
    ensures Recs(RecItems(payloads)) == payloads
    decreases |payloads|
  {
    if payloads != [] {
      var front := payloads[..|payloads| - 1];
      RecsOfRecItems(front);
      assert RecItems(payloads)[..|payloads| - 1] == RecItems(front);
    }
  }

  /** Version-1 lines decode, under the current tag and under version 1 alike, to the same payloads. */
  lemma OldImageDecodes(tag: FormatTag, crc: Crc, lines: seq<(byte, bytes)>, image: bytes)
    requires ValidTag(tag) && forall i :: 0 <= i < |lines| ==> NEWLINE !in lines[i].1
    requires image == RecordLines(OldWriter(tag, crc), Payloads(lines))
    ensures Decides(ReaderOf(tag, crc), image, Ok(DecodedLines(AtVersion(1, lines), |image|)))
  {
    var w := OldWriter(tag, crc);
    var items := RecItems(Payloads(lines));
    OldWriterIsFaithful(tag, crc);
    ImageRender(w, Payloads(lines));
    assert Written(w, items);
    RecsOfRecItems(Payloads(lines));
    assert Versioned(w, Payloads(lines)) == AtVersion(1, lines);
    LinesOfRender(w, items, image);
    ItemLinesReadClean(w, items);
    CleanFileDecodes(w, image, ItemLines(w, items), |image|);
  }

  lemma {:induction false} SameRecordLines(w: Writer, w': Writer, payloads: seq<bytes>)
    requires w.record == w'.record
    ensures RecordLines(w, payloads) == RecordLines(w', payloads)
    decreases |payloads|
  {
    if payloads != [] {
      SameRecordLines(w, w', payloads[..|payloads| - 1]);
    }
  }

  /** The records of a decodable file at version 1; the decoder's error for any other file. */
  method ReframeToV1(tag: FormatTag, crc: Crc, file: bytes)
    returns (out: Result<bytes, FormatError>, ghost verdict: Result<DecodedLines, FormatError>)
    requires ValidTag(tag)
    ensures Decides(ReaderOf(tag, crc), file, verdict)
    ensures verdict.Err? ==> out == Err(verdict.error)
    ensures verdict.Ok? ==>
              && out.Ok?
              && Decides(ReaderOf(V1(tag), crc), out.value,
                         Ok(DecodedLines(AtVersion(1, verdict.value.lines), |out.value|)))
              && Decides(ReaderOf(tag, crc), out.value,
                         Ok(DecodedLines(AtVersion(1, verdict.value.lines), |out.value|)))
  {
    var decoded := DecodeLinesExtent(tag, crc, file);
    verdict := decoded;
    if decoded.Err? {
      return Err(decoded.error), verdict;
    }
    var lines := decoded.value.lines;
    var image := ReframeLines(tag, crc, lines);
    DecodedHoldNoNewline(tag, crc, file, decoded.value);
    OldImageDecodes(tag, crc, lines, image);
    SameRecordLines(OldWriter(tag, crc), OldWriter(V1(tag), crc), Payloads(lines));
    OldImageDecodes(V1(tag), crc, lines, image);
    out := Ok(image);
  }

  method ReframeLines(tag: FormatTag, crc: Crc, lines: seq<(byte, bytes)>) returns (image: bytes)
    ensures image == RecordLines(OldWriter(tag, crc), Payloads(lines))
  {
    image := [];
    ghost var payloads := Payloads(lines);
    for i := 0 to |lines|
      invariant image == RecordLines(OldWriter(tag, crc), payloads[..i])
    {
      image := image + EncodeLine(V1(tag), crc, lines[i].1);
      assert payloads[..i + 1][..i] == payloads[..i];
    }
    assert payloads[..|lines|] == payloads;
  }
}

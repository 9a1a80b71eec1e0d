/**
 The bytes of a staged rewrite: the image's record lines, then the record lines
 of every round persisted since, taken from the tail.
 */
module StagedFile {
  import opened Wrappers
  import opened MarkerRule
  import opened Format
  import opened WalFile
  import opened CrashRecovery
  import opened WalRuns
  import opened WalWriter
  import opened Reframe

  /** The bytes appended to the live file since a rewrite's image was captured. */
  class RewriteTail {
    var recording: Option<bytes>

    constructor ()
      ensures recording == None
    {
      recording := None;
    }

    method Begin()
      modifies this
      ensures recording == Some([])
    {
      recording := Some([]);
    }

    method Push(more: bytes)
      modifies this
      ensures recording == match old(recording) { case Some(b) => Some(b + more) case None => None }
    {
      if recording.Some? {
        recording := Some(recording.value + more);
      }
    }

    /** Everything recorded so far; recording goes on. */
    method Take() returns (taken: bytes)
      modifies this
      ensures taken == (if old(recording).Some? then old(recording).value else [])
      ensures recording == if old(recording).Some? then Some([]) else None
    {
      taken := [];
      if recording.Some? {
        taken := recording.value;
        recording := Some([]);
      }
    }

    method IsActive() returns (active: bool)
      ensures active <==> recording.Some?
    {
      active := recording.Some?;
    }

    method End()
      modifies this
      ensures recording == None
    {
      recording := None;
    }
  }

  lemma {:induction false} RecordLinesAppend(w: Writer, a: seq<bytes>, b: seq<bytes>)
    ensures RecordLines(w, a + b) == RecordLines(w, a) + RecordLines(w, b)
    decreases |b|
  {
    if b == [] {
      assert a + b == a;
    } else {
      assert (a + b)[..|a + b| - 1] == a + b[..|b| - 1];
      RecordLinesAppend(w, a, b[..|b| - 1]);
    }
  }

  /** Record lines alone decode to exactly their payloads: there is no marker to be out of place. */
  lemma RecordLinesDecode(w: Writer, payloads: seq<bytes>)
    requires Faithful(w) && forall i :: 0 <= i < |payloads| ==> w.plain(payloads[i])
    ensures var file := RecordLines(w, payloads);
            Decides(w.reader, file, Ok(DecodedLines(Versioned(w, payloads), |file|)))
  {
    var items, file := RecItems(payloads), RecordLines(w, payloads);
    ImageRender(w, payloads);
    RecsOfRecItems(payloads);
    LinesOfRender(w, items, file);
    ItemLinesReadClean(w, items);
    CleanFileDecodes(w, file, ItemLines(w, items), |file|);
  }

  /** A live-file marker copied behind the image would make recovery refuse the file. */
  lemma CopiedMarkerIsRefused(w: Writer, image: seq<bytes>, claimed: nat, rest: bytes)
    requires Faithful(w) && forall i :: 0 <= i < |image| ==> w.plain(image[i])
    requires claimed < w.limit && claimed != |RecordLines(w, image)|
    ensures var at := |RecordLines(w, image)|;
            var file := RecordLines(w, image) + w.marker(claimed) + [NEWLINE] + rest;
            Decides(w.reader, file, Err(BadSyncMarker(w.reader.name, at, claimed)))
  {
    var items, text := RecItems(image), w.marker(claimed);
    var before := RecordLines(w, image);
    var file := before + text + [NEWLINE] + rest;
    ImageRender(w, image);
    assert MarkerReadsBack(w, claimed, |before|);
    LinesOfRender(w, items, file);
    LinesAfterPrefix(file, before, text);
    ItemLinesReadClean(w, items);
    MisplacedMarkerDecides(w, file, ItemLines(w, items), Line(|before|, text), LinesFrom(file, |before| + |text| + 1),
                           claimed);
  }

  lemma MisplacedMarkerDecides(w: Writer, file: bytes, good: seq<Line>, line: Line, rest: seq<Line>, claimed: nat)
    requires Lines(file) == good + ([line] + rest) && AllClean(w, good, line.start)
    requires w.reader.clean(line) == Fatal(BadSyncMarker(w.reader.name, line.start, claimed))
    ensures Decides(w.reader, file, Err(BadSyncMarker(w.reader.name, line.start, claimed)))
  {
    var ls := Lines(file);
    var b := FirstBad(w.reader, ls);
    assert ls[|good|] == line;
    forall i | 0 <= i < |good|
      ensures w.reader.clean(ls[i]) == w.reader.clean(good[i])
    {
      assert ls[i] == good[i];
    }
    assert b > |good|;
    assert ReadingAt(w.reader, ls, b, |good|) == Fatal(BadSyncMarker(w.reader.name, line.start, claimed));
  }

  predicate AllReadable<R>(codec: Codec<R>, payloads: seq<bytes>) {
    forall i :: 0 <= i < |payloads| ==> Readable(codec)(payloads[i])
  }

  lemma EncodedReadable<R(!new)>(codec: Codec<R>, payloads: seq<bytes>, records: seq<R>)
    requires Lossless(codec) && AllReadable(codec, payloads)
    ensures AllReadable(codec, payloads + Encoded(codec, records))
  {
  }

  lemma TailGrows(w: Writer, staged: bytes, tail: bytes, payloads: seq<bytes>, lines: bytes, more: seq<bytes>)
    requires staged + tail == RecordLines(w, payloads) && lines == RecordLines(w, more)
    ensures staged + (tail + lines) == RecordLines(w, payloads + more)
  {
    RecordLinesAppend(w, payloads, more);
    assert staged + (tail + lines) == staged + tail + lines;
  }

  /** A rewrite in progress: `payloads` are the image's, then those of every round since. */
  class StagedRewriter<R(!new,==)> {
    const tag: FormatTag
    const crc: Crc
    const codec: Codec<R>
    const tail: RewriteTail
    var staged: bytes
    ghost var payloads: seq<bytes>

    ghost function W(): Writer {
      WriterOf(tag, crc, Readable(codec))
    }

    ghost predicate Valid()
      reads this, tail
    {
      && ValidTag(tag) && Lossless(codec) && tail.recording.Some?
      && staged + tail.recording.value == RecordLines(W(), payloads)
      && AllReadable(codec, payloads)
    }

    /** The image is captured and recording begins in one hold of the lock. */
    constructor (tag: FormatTag, crc: Crc, codec: Codec<R>, tail: RewriteTail, image: seq<R>)
      requires ValidTag(tag) && Lossless(codec)
      modifies tail
      ensures Valid() && payloads == Encoded(codec, image)
      ensures this.tag == tag && this.crc == crc && this.codec == codec && this.tail == tail
    {
      this.tag, this.crc, this.codec, this.tail := tag, crc, codec, tail;
      payloads := Encoded(codec, image);
      var lines := EncodeRecords(tag, crc, codec, image);
      staged := lines;
      new;
      tail.Begin();
      assert staged + [] == staged;
    }

    /** A round persisted to the live file meanwhile: its record lines, without its marker. */
    method Landed(records: seq<R>)
      requires Valid()
      modifies this, tail
      ensures Valid() && payloads == old(payloads) + Encoded(codec, records)
    {
      var lines := EncodeRecords(tag, crc, codec, records);
      TailGrows(W(), staged, tail.recording.value, payloads, lines, Encoded(codec, records));
      EncodedReadable(codec, payloads, records);
      tail.Push(lines);
      payloads := payloads + Encoded(codec, records);
    }

    method CatchUp()
      requires Valid()
      modifies this, tail
      ensures Valid() && payloads == old(payloads)
    {
      var delta := tail.Take();
      staged := staged + delta;
      assert staged + [] == staged;
    }

    /** The swapped-in file decodes to the image and every round since, and nothing is recorded any more. */
    method Commit() returns (file: bytes)
      requires Valid()
      modifies this, tail
      ensures tail.recording == None
      ensures Decides(ReaderOf(tag, crc), file, Ok(DecodedLines(Versioned(W(), old(payloads)), |file|)))
    {
      ReadableFits(tag, codec);
      FormatIsFaithful(tag, crc, Readable(codec));
      RecordLinesDecode(W(), payloads);
      var delta := tail.Take();
      file := staged + delta;
      tail.End();
    }
  }
}

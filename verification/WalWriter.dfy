/**
 The writer of one WAL file: records through an abstract codec, framed lines,
 sync markers, and recovery, refining the file's life cycle.
 */
module WalWriter {
  import opened Wrappers
  import opened MarkerRule
  import opened Format
  import opened WalFile
  import opened CrashRecovery
  import opened RecoveredPrefix
  import opened WalRuns

  // --- The line format is a faithful writer -----------------------------------------------------

  function WriterOf(tag: FormatTag, crc: Crc, plain: bytes -> bool): Writer {
    Writer(ReaderOf(tag, crc), tag.version, plain, payload => LineText(tag, crc, payload),
           claimed => LineText(tag, crc, MarkerPayload(claimed)),
           if tag.version < SYNC_MARKER_MIN_VERSION then 0 else U64_LIMIT)
  }

  /** Payloads a format can carry: one line, and from version 2 on none that looks like a marker. */
  ghost predicate Fits(tag: FormatTag, plain: bytes -> bool) {
    forall payload :: plain(payload) ==>
      NEWLINE !in payload && (tag.version < SYNC_MARKER_MIN_VERSION || PlainPayload(payload))
  }

  lemma OldRecordReadsBack(tag: FormatTag, crc: Crc, payload: bytes, start: nat)
    requires ValidTag(tag) && tag.version < SYNC_MARKER_MIN_VERSION
    ensures ReadClean(tag, crc, Line(start, LineText(tag, crc, payload))) == Record(tag.version, payload)
    ensures ReadPastBad(tag, crc, Line(start, LineText(tag, crc, payload))) == Skipped
  {
    WrittenLineIsFramed(tag, crc, payload);
    WrittenVersion(tag, payload);
  }

  /** Whatever the checksum, what is framed reads back, and a marker proves only its own offset. */
  lemma FormatIsFaithful(tag: FormatTag, crc: Crc, plain: bytes -> bool)
    requires ValidTag(tag) && Fits(tag, plain)
    ensures Faithful(WriterOf(tag, crc, plain))
  {
    var w := WriterOf(tag, crc, plain);
    ReadersAreCoherent(tag, crc);
    forall payload, start: nat
      ensures RecordReadsBack(w, payload, start)
    {
      if plain(payload) {
        WrittenTextIsOneLine(tag, crc, payload);
        if tag.version < SYNC_MARKER_MIN_VERSION {
          OldRecordReadsBack(tag, crc, payload, start);
        } else {
          WrittenRecordReadsBack(tag, crc, payload, start);
        }
      }
    }
    forall claimed: nat, start: nat
      ensures MarkerReadsBack(w, claimed, start)
    {
      if claimed < w.limit {
        MarkerIsOneLine(claimed);
        WrittenTextIsOneLine(tag, crc, MarkerPayload(claimed));
        WrittenMarkerReadsBack(tag, crc, claimed, start);
      }
    }
  }

  lemma MarkerIsOneLine(claimed: nat)
    ensures NEWLINE !in MarkerPayload(claimed)
  {
  }

  // --- Records -------------------------------------------------------------------------------------

  /** The record codec: what a payload decodes to. */
  datatype Codec<!R> = Codec(encode: R -> bytes, decode: bytes -> Option<R>)

  ghost predicate Lossless<R(!new)>(codec: Codec<R>) {
    forall record :: codec.decode(codec.encode(record)) == Some(record) && PlainPayload(codec.encode(record))
  }

  function Encoded<R>(codec: Codec<R>, records: seq<R>): seq<bytes> {
    seq(|records|, i requires 0 <= i < |records| => codec.encode(records[i]))
  }

  /** The payloads this codec reads. */
  function Readable<R>(codec: Codec<R>): bytes -> bool {
    payload => PlainPayload(payload) && codec.decode(payload).Some?
  }

  lemma ReadableFits<R>(tag: FormatTag, codec: Codec<R>)
    ensures Fits(tag, Readable(codec))
  {
    forall payload | Readable(codec)(payload)
      ensures PlainPayload(payload)
    {
    }
  }

  predicate Decoded<R(==)>(codec: Codec<R>, payloads: seq<bytes>, records: seq<R>) {
    |records| == |payloads| && forall i :: 0 <= i < |payloads| ==> codec.decode(payloads[i]) == Some(records[i])
  }

  lemma FramedLinesAreLong(tag: FormatTag, crc: Crc, plain: bytes -> bool, items: seq<Item>)
    ensures TwoByteLines(WriterOf(tag, crc, plain), items)
  {
  }

  /** The writer of a framed log of records. */
  function Framed<R>(tag: FormatTag, crc: Crc, codec: Codec<R>): Writer {
    WriterOf(tag, crc, Readable(codec))
  }

  lemma FramedIsFaithful<R>(tag: FormatTag, crc: Crc, codec: Codec<R>)
    requires ValidTag(tag)
    ensures Faithful(Framed(tag, crc, codec))
  {
    ReadableFits(tag, codec);
    FormatIsFaithful(tag, crc, Readable(codec));
  }

  /**
   A framed log after any crash: it decodes without error to lines that hold every synced record, and
   the un-synced lines kept are an initial run of those written exactly when the damage left no hole.
   */
  lemma FramedCrashRecovers<R>(tag: FormatTag, crc: Crc, codec: Codec<R>, states: seq<Wal>, steps: seq<Step>, i: nat,
                               after: bytes, d: Result<DecodedLines, FormatError>) returns (done: seq<Item>)
    requires ValidTag(tag) && Run(Framed(tag, crc, codec), states, steps) && i <= |steps|
    requires states[i].durable <= |states[i].items|
    requires CrashImage(Framed(tag, crc, codec), states[i].items, states[i].durable, after)
    requires Decides(ReaderOf(tag, crc), after, d)
    ensures var w, s := Framed(tag, crc, codec), states[i];
            && CrashesTo(w, s, after, done) && Written(w, done)
            && d.Ok? && d.value.lines == Versioned(w, Recs(done)) && Synced(s) <= Recs(done)
            && (Unholed(w, s, after) <==> NoGap(w, s.items, s.durable, done))
            && (Unholed(w, s, after) ==> Recs(done) <= Recs(s.items))
  {
    FramedIsFaithful(tag, crc, codec);
    done := EveryCrashRecovers(Framed(tag, crc, codec), states, steps, i, after, d);
  }

  /** A framed log torn by a crash, with one byte overwritten, decodes to a prefix that holds every synced record. */
  lemma FramedCrashRecoversPrefix<R>(tag: FormatTag, crc: Crc, codec: Codec<R>, states: seq<Wal>, steps: seq<Step>,
                                     i: nat, after: bytes, d: Result<DecodedLines, FormatError>, fault: nat)
    returns (n: nat)
    requires ValidTag(tag) && Run(Framed(tag, crc, codec), states, steps) && i <= |steps|
    requires states[i].durable <= |states[i].items|
    requires CrashImage(Framed(tag, crc, codec), states[i].items, states[i].durable, after)
    requires OneByteDamage(Render(Framed(tag, crc, codec), states[i].items), after, fault)
    requires Decides(ReaderOf(tag, crc), after, d)
    ensures |Synced(states[i])| <= n <= |Recs(states[i].items)|
    ensures d.Ok? && d.value.lines == Versioned(Framed(tag, crc, codec), Recs(states[i].items)[..n])
    ensures Unholed(Framed(tag, crc, codec), states[i], after)
  {
    FramedIsFaithful(tag, crc, codec);
    FramedLinesAreLong(tag, crc, Readable(codec), states[i].items);
    OneByteCrashIsUnholed(Framed(tag, crc, codec), states, steps, i, after, fault);
    n := OneByteCrashRecoversPrefix(Framed(tag, crc, codec), states, steps, i, after, d, fault);
  }

  /** The payloads of decoded lines. */
  function Payloads(lines: seq<(byte, bytes)>): seq<bytes> {
    seq(|lines|, i requires 0 <= i < |lines| => lines[i].1)
  }

  predicate AllDecode<R>(codec: Codec<R>, lines: seq<(byte, bytes)>) {
    forall i :: 0 <= i < |lines| ==> codec.decode(lines[i].1).Some?
  }

  /** The records of the decoded lines, or the decoder's error, or a payload that does not decode. */
  ghost predicate RecordsFrom<R>(tag: FormatTag, codec: Codec<R>, d: Result<DecodedLines, FormatError>,
                                 out: Result<(seq<R>, nat), FormatError>) {
    match d
    case Err(e) => out == Err(e)
    case Ok(lines) =>
      if AllDecode(codec, lines.lines) then
        && out.Ok? && out.value.1 == lines.validLen && |out.value.0| == |lines.lines|
        && forall i :: 0 <= i < |lines.lines| ==> codec.decode(lines.lines[i].1) == Some(out.value.0[i])
      else out == Err(Malformed(tag.name))
  }

  method DecodeWithExtent<R>(tag: FormatTag, crc: Crc, codec: Codec<R>, file: bytes)
    returns (out: Result<(seq<R>, nat), FormatError>, ghost verdict: Result<DecodedLines, FormatError>)
    ensures Decides(ReaderOf(tag, crc), file, verdict) && RecordsFrom(tag, codec, verdict, out)
    ensures out.Ok? ==> out.value.1 <= |file|
  {
    var d := DecodeLinesExtent(tag, crc, file);
    verdict := d;
    if d.Err? {
      return Err(d.error), verdict;
    }
    ExtentInFile(ReaderOf(tag, crc), file, d.value);
    var records: seq<R> := [];
    for i := 0 to |d.value.lines|
      invariant |records| == i
      invariant forall k :: 0 <= k < i ==> codec.decode(d.value.lines[k].1) == Some(records[k])
    {
      var record := codec.decode(d.value.lines[i].1);
      if record.None? {
        return Err(Malformed(tag.name)), verdict;
      }
      records := records + [record.value];
    }
    out := Ok((records, d.value.validLen));
  }

  // --- The pending sync marker -----------------------------------------------------------------------

  class SyncMarkerState {
    var synced: bool

    constructor ()
      ensures !synced
    {
      synced := false;
    }

    /** The marker line to put before this round's records, or nothing; forgets the flag. */
    method TakeMarker(tag: FormatTag, crc: Crc, size: Option<nat>) returns (marker: bytes)
      modifies this
      ensures !synced
      ensures marker == if old(synced) && size.Some? then EncodeLine(tag, crc, MarkerPayload(size.value)) else []
    {
      if !synced {
        return [];
      }
      synced := false;
      marker := if size.Some? then EncodeLine(tag, crc, MarkerPayload(size.value)) else [];
    }

    method MarkSynced()
      modifies this
      ensures synced
    {
      synced := true;
    }

    method Invalidate()
      modifies this
      ensures !synced
    {
      synced := false;
    }
  }

  // --- The writer --------------------------------------------------------------------------------------

  function RecordLines(w: Writer, payloads: seq<bytes>): bytes {
    if payloads == [] then []
    else RecordLines(w, payloads[..|payloads| - 1]) + (w.record(payloads[|payloads| - 1]) + [NEWLINE])
  }

  lemma Regrouped(a: bytes, b: bytes, c: bytes, d: bytes)
    ensures (a + b) + c + d == a + (b + (c + d))
  {
  }

  /** Appending the lines of records to a file lays the records out after its items. */
  lemma {:induction false} RecordLinesRender(w: Writer, items: seq<Item>, payloads: seq<bytes>)
    ensures Render(w, items + RecItems(payloads)) == Render(w, items) + RecordLines(w, payloads)
    decreases |payloads|
  {
    if payloads == [] {
      assert items + RecItems(payloads) == items;
    } else {
      var front, last := payloads[..|payloads| - 1], payloads[|payloads| - 1];
      var laid := items + RecItems(front);
      calc {
        Render(w, items + RecItems(payloads));
        { assert items + RecItems(payloads) == laid + [Rec(last)]; }
        Render(w, laid + [Rec(last)]);
        { RenderAppend(w, laid, Rec(last)); }
        Render(w, laid) + w.record(last) + [NEWLINE];
        { RecordLinesRender(w, items, front); }
        (Render(w, items) + RecordLines(w, front)) + w.record(last) + [NEWLINE];
        { Regrouped(Render(w, items), RecordLines(w, front), w.record(last), [NEWLINE]); }
        Render(w, items) + RecordLines(w, payloads);
      }
    }
  }

  lemma ImageRender(w: Writer, payloads: seq<bytes>)
    ensures Render(w, RecItems(payloads)) == RecordLines(w, payloads)
  {
    RecordLinesRender(w, [], payloads);
    assert [] + RecItems(payloads) == RecItems(payloads);
  }

  function Led(items: seq<Item>, due: bool): seq<Item> {
    if due then items + [Mark] else items
  }

  lemma LedRender(w: Writer, items: seq<Item>, due: bool, marker: bytes)
    requires marker == if due then w.marker(|Render(w, items)|) + [NEWLINE] else []
    ensures Render(w, Led(items, due)) == Render(w, items) + marker
  {
    RenderAppend(w, items, Mark);
  }

  /** One append's bytes: the marker line, if one is due, and the record lines. */
  lemma AppendedRender(w: Writer, s: Wal, payloads: seq<bytes>, sizeKnown: bool, marker: bytes)
    requires marker == if s.synced && sizeKnown then w.marker(|Render(w, s.items)|) + [NEWLINE] else []
    ensures Render(w, Appended(s, payloads, sizeKnown).items)
            == Render(w, s.items) + (marker + RecordLines(w, payloads))
  {
    var before := Led(s.items, s.synced && sizeKnown);
    calc {
      Render(w, Appended(s, payloads, sizeKnown).items);
      { assert Appended(s, payloads, sizeKnown).items == before + RecItems(payloads); }
      Render(w, before + RecItems(payloads));
      { RecordLinesRender(w, before, payloads); }
      Render(w, before) + RecordLines(w, payloads);
      { LedRender(w, s.items, s.synced && sizeKnown, marker); }
      (Render(w, s.items) + marker) + RecordLines(w, payloads);
      Render(w, s.items) + (marker + RecordLines(w, payloads));
    }
  }

  /** The record lines of a round, or of a whole image: never a marker. */
  method EncodeRecords<R>(tag: FormatTag, crc: Crc, codec: Codec<R>, records: seq<R>) returns (buffer: bytes)
    ensures buffer == RecordLines(WriterOf(tag, crc, Readable(codec)), Encoded(codec, records))
  {
    ghost var w := WriterOf(tag, crc, Readable(codec));
    ghost var payloads := Encoded(codec, records);
    buffer := [];
    for i := 0 to |records|
      invariant buffer == RecordLines(w, payloads[..i])
    {
      buffer := buffer + EncodeLine(tag, crc, codec.encode(records[i]));
      assert payloads[..i + 1][..i] == payloads[..i];
    }
    assert payloads[..|records|] == payloads;
  }

  lemma {:induction false} PayloadsPlain(w: Writer, items: seq<Item>)
    requires Plain(w, items)
    ensures forall i :: 0 <= i < |Recs(items)| ==> w.plain(Recs(items)[i])
    decreases |items|
  {
    if items != [] {
      PayloadsPlain(w, items[..|items| - 1]);
    }
  }

  /** What recovery promises: the crash is a step to a writer's file again, and its records are returned. */
  ghost predicate Recovery<R>(w: Writer, codec: Codec<R>, s: Wal, after: bytes, done: seq<Item>, records: seq<R>,
                              clean: bytes)
  {
    && Next(w, s, Crash(after), Reopened(done, |done|)) && Inv(w, Reopened(done, |done|))
    && Decoded(codec, Recs(done), records) && clean == Render(w, done)
  }

  lemma CrashIsAStep(w: Writer, s: Wal, after: bytes) returns (done: seq<Item>)
    requires Faithful(w) && Inv(w, s) && CrashImage(w, s.items, s.durable, after)
    ensures RecoversTo(w, after, done) && Inv(w, Reopened(done, |done|))
    ensures Next(w, s, Crash(after), Reopened(done, |done|))
  {
    done := Survivors(w, s, after);
    InvNext(w, s, Crash(after), Reopened(done, |done|));
  }

  lemma PayloadsDecode<R>(codec: Codec<R>, w: Writer, done: seq<Item>)
    requires w.plain == Readable(codec) && Plain(w, done)
    ensures AllDecode(codec, Versioned(w, Recs(done)))
  {
    PayloadsPlain(w, done);
  }

  /** Recovery reads a codec's own payloads back, whatever the crash did. */
  lemma RecoveryOutcome<R>(w: Writer, tag: FormatTag, codec: Codec<R>, s: Wal, after: bytes,
                           verdict: Result<DecodedLines, FormatError>, out: Result<(seq<R>, nat), FormatError>)
    returns (done: seq<Item>)
    requires Faithful(w) && w.plain == Readable(codec) && Inv(w, s)
    requires CrashImage(w, s.items, s.durable, after)
    requires Decides(w.reader, after, verdict) && RecordsFrom(tag, codec, verdict, out)
    ensures out.Ok? && out.value.1 <= |after|
    ensures Recovery(w, codec, s, after, done, out.value.0, Repaired(after, out.value.1))
  {
    done := CrashIsAStep(w, s, after);
    VerdictIs(w, after, done, verdict);
    PayloadsDecode(codec, w, done);
    forall i | 0 <= i < |Recs(done)|
      ensures codec.decode(Recs(done)[i]) == Some(out.value.0[i])
    {
      assert verdict.value.lines[i].1 == Recs(done)[i];
    }
  }

  /** Read, decode and repair: the records, and the bytes the file is left with. */
  method RecoverFile<R>(tag: FormatTag, crc: Crc, codec: Codec<R>, ghost w: Writer, ghost s: Wal, after: bytes)
    returns (out: Result<seq<R>, FormatError>, clean: bytes, ghost done: seq<Item>)
    requires Faithful(w) && w.reader == ReaderOf(tag, crc) && w.plain == Readable(codec) && Inv(w, s)
    requires CrashImage(w, s.items, s.durable, after)
    ensures out.Ok? && Recovery(w, codec, s, after, done, out.value, clean)
  {
    var d, verdict := DecodeWithExtent(tag, crc, codec, after);
    match d {
      case Err(e) => out, clean := Err(e), after;
      case Ok((records, validLen)) => out, clean := Ok(records), Repaired(after, validLen);
    }
    done := RecoveryOutcome(w, tag, codec, s, after, verdict, d);
  }

  /**
   One WAL file and its writer.  The ghost `log` is the file's place in its life cycle;
   every method is one step of it.
   */
  class WalFileWriter<R(!new,==)> {
    const tag: FormatTag
    const crc: Crc
    const codec: Codec<R>
    const markers: SyncMarkerState
    var file: bytes
    ghost var log: Wal

    ghost function W(): Writer {
      WriterOf(tag, crc, Readable(codec))
    }

    ghost predicate Valid()
      reads this, markers
    {
      && ValidTag(tag) && Lossless(codec) && file == Render(W(), log.items) && Inv(W(), log)
      && markers.synced == log.synced
    }

    constructor (tag: FormatTag, crc: Crc, codec: Codec<R>)
      requires ValidTag(tag) && Lossless(codec)
      ensures Valid() && log == NewFile() && fresh(markers)
      ensures this.tag == tag && this.crc == crc && this.codec == codec
    {
      this.tag, this.crc, this.codec := tag, crc, codec;
      file := [];
      log := NewFile();
      markers := new SyncMarkerState();
    }

    /** One round's single append: the pending marker, then the records. */
    method AppendRound(records: seq<R>, size: Option<nat>)
      requires Valid() && log.phase.Ready?
      requires size.Some? ==> size.value == |file|
      requires Written(W(), Appended(log, Encoded(codec, records), size.Some?).items)
      modifies this, markers
      ensures Valid() && Next(W(), old(log), Append(Encoded(codec, records), size.Some?), log)
    {
      ghost var payloads := Encoded(codec, records);
      ghost var s := log;
      var marker := markers.TakeMarker(tag, crc, size);
      var lines := EncodeRecords(tag, crc, codec, records);
      AppendedRender(W(), s, payloads, size.Some?, marker);
      file := file + (marker + lines);
      log := Appended(s, payloads, size.Some?);
      InvNext(W(), s, Append(payloads, size.Some?), log);
    }

    /** The round's sync returned. */
    method FinishRound(ok: bool)
      requires Valid() && log.phase.InFlight?
      modifies this, markers
      ensures Valid() && file == old(file)
      ensures Next(W(), old(log), if ok then SyncOk else RoundFails, log)
    {
      if ok {
        markers.MarkSynced();
        log := Wal(log.items, |log.items|, true, Ready);
      } else {
        log := log.(phase := Suspect);
      }
    }
  
    /** A whole-file rewrite from records alone. */
    method ReplaceWith(records: seq<R>, ok: bool)
      requires Valid() && !log.phase.InFlight?
      requires Written(W(), RecItems(Encoded(codec, records)))
      modifies this, markers
      ensures Valid()
      ensures Next(W(), old(log), if ok then Replace(Encoded(codec, records)) else ReplaceFails, log)
    {
      ghost var s, payloads := log, Encoded(codec, records);
      markers.Invalidate();
      if ok {
        file := EncodeRecords(tag, crc, codec, records);
        ImageRender(W(), payloads);
        log := Replaced(payloads);
        InvNext(W(), s, Replace(payloads), log);
      } else {
        log := s.(synced := false, phase := Suspect);
        InvNext(W(), s, ReplaceFails, log);
      }
    }

    /** Reopening after a crash left `after`: decode, repair, and start with no pending marker. */
    method Recover(after: bytes) returns (out: Result<seq<R>, FormatError>)
      requires Valid() && CrashImage(W(), log.items, log.durable, after)
      modifies this, markers
      ensures Valid() && Next(W(), old(log), Crash(after), log)
      ensures out.Ok? && Decoded(codec, Recs(log.items), out.value)
    {
      ReadableFits(tag, codec);
      FormatIsFaithful(tag, crc, Readable(codec));
      var d, clean, done := RecoverFile(tag, crc, codec, W(), log, after);
      out, file := d, clean;
      markers.Invalidate();
      log := Reopened(done, |done|);
    }
  }
}

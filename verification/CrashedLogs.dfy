/**
 Durable Raft state through a crash: what a node, or each tablet of a shared
 log, recovers from a torn file.
 */
module CrashedLogs {
  import opened Wrappers
  import opened WalRecords
  import opened MarkerRule
  import opened Format
  import opened WalFile
  import opened CrashRecovery
  import opened RecoveredPrefix
  import opened WalRuns
  import opened WalWriter

  type Logged<C, S> = WalRecord<C, S>

  /** The run's file holds these records. */
  ghost predicate Holds<R(!new)>(w: Writer, codec: Codec<R>, s: Wal, records: seq<R>) {
    Lossless(codec) && s.durable <= |s.items| && Recs(s.items) == Encoded(codec, records)
  }

  /** The crash of a framed log, at any point of any run, and the decoder's verdict on it. */
  ghost predicate Crashed<R(!new)>(tag: FormatTag, crc: Crc, codec: Codec<R>, states: seq<Wal>, steps: seq<Step>,
                                   i: nat, after: bytes, d: Result<DecodedLines, FormatError>, records: seq<R>)
  {
    var w := Framed(tag, crc, codec);
    && ValidTag(tag) && Run(w, states, steps) && i <= |steps| && Holds(w, codec, states[i], records)
    && CrashImage(w, states[i].items, states[i].durable, after) && Decides(ReaderOf(tag, crc), after, d)
  }

  /** The records of readable payloads. */
  function RecordsIn<R>(codec: Codec<R>, payloads: seq<bytes>): (records: seq<R>)
    requires forall i :: 0 <= i < |payloads| ==> codec.decode(payloads[i]).Some?
  {
    seq(|payloads|, i requires 0 <= i < |payloads| => codec.decode(payloads[i]).value)
  }

  lemma EncodedPrefix<R(!new)>(codec: Codec<R>, records: seq<R>, payloads: seq<bytes>, n: nat)
    requires Lossless(codec) && n <= |payloads| && n <= |records| && payloads[..n] == Encoded(codec, records)[..n]
    requires forall i :: 0 <= i < |payloads| ==> codec.decode(payloads[i]).Some?
    ensures RecordsIn(codec, payloads)[..n] == records[..n]
  {
    forall i | 0 <= i < n
      ensures RecordsIn(codec, payloads)[i] == records[i]
    {
      assert payloads[i] == payloads[..n][i] == Encoded(codec, records)[..n][i] == codec.encode(records[i]);
    }
  }

  lemma SyncedAreRecords<R(!new)>(codec: Codec<R>, s: Wal, records: seq<R>)
    requires s.durable <= |s.items| && Recs(s.items) == Encoded(codec, records)
    ensures |Synced(s)| <= |records| && Synced(s) == Encoded(codec, records)[..|Synced(s)|]
  {
    RecsGrow(s.items, s.durable);
  }

  /** Readable payloads that start like the encoded records are records that start like them. */
  lemma KeptRecords<R(!new)>(codec: Codec<R>, records: seq<R>, payloads: seq<bytes>, n: nat) returns (kept: seq<R>)
    requires Lossless(codec) && forall i :: 0 <= i < |payloads| ==> codec.decode(payloads[i]).Some?
    requires n <= |records| && Encoded(codec, records)[..n] <= payloads
    ensures Decoded(codec, payloads, kept) && records[..n] <= kept
    ensures payloads <= Encoded(codec, records) ==> kept <= records
  {
    kept := RecordsIn(codec, payloads);
    EncodedPrefix(codec, records, payloads, n);
    if payloads <= Encoded(codec, records) {
      assert payloads[..|payloads|] == payloads;
      EncodedPrefix(codec, records, payloads, |payloads|);
      assert kept[..|payloads|] == kept;
    }
  }

  /**
   What a crash leaves of a log of records: it starts with every synced record.  The un-synced lines
   kept are an initial run of those written exactly when the damage left no hole, and then the records
   are the first ones written.
   */
  ghost predicate Recovered<R(!new)>(w: Writer, codec: Codec<R>, s: Wal, after: bytes,
                                     d: Result<DecodedLines, FormatError>, records: seq<R>, done: seq<Item>,
                                     kept: seq<R>)
  {
    && s.durable <= |s.items| && CrashesTo(w, s, after, done) && |Synced(s)| <= |records|
    && d.Ok? && Decoded(codec, Payloads(d.value.lines), kept) && records[..|Synced(s)|] <= kept
    && (Unholed(w, s, after) <==> NoGap(w, s.items, s.durable, done))
    && (Unholed(w, s, after) ==> kept <= records)
  }

  /** Every record of a log that is on disk. */
  function SyncedCount(s: Wal): nat {
    if s.durable <= |s.items| then |Synced(s)| else 0
  }

  lemma CrashKeepsRecords<R(!new)>(tag: FormatTag, crc: Crc, codec: Codec<R>, states: seq<Wal>, steps: seq<Step>,
                                   i: nat, after: bytes, d: Result<DecodedLines, FormatError>, records: seq<R>)
    returns (done: seq<Item>, kept: seq<R>)
    requires Crashed(tag, crc, codec, states, steps, i, after, d, records)
    ensures Recovered(Framed(tag, crc, codec), codec, states[i], after, d, records, done, kept)
  {
    var w, s := Framed(tag, crc, codec), states[i];
    done := FramedCrashRecovers(tag, crc, codec, states, steps, i, after, d);
    PayloadsPlain(w, done);
    SyncedAreRecords(codec, s, records);
    assert Payloads(d.value.lines) == Recs(done);
    kept := KeptRecords(codec, records, Recs(done), |Synced(s)|);
  }

  lemma ReplayExtends<C, S>(records: seq<Logged<C, S>>, synced: nat, kept: seq<Logged<C, S>>)
    requires synced <= |records| && records[..synced] <= kept
    ensures ReplayFrom(Empty(), kept) == ReplayFrom(ReplayFrom(Empty(), records[..synced]), kept[synced..])
  {
    assert kept == records[..synced] + kept[synced..];
    ReplayAppend(Empty(), records[..synced], kept[synced..]);
  }

  lemma KeptIsContiguous<C, S>(records: seq<Logged<C, S>>, kept: seq<Logged<C, S>>)
    requires WellIndexed(Empty<C, S>(), records) && kept <= records
    ensures Contiguous(ReplayFrom(Empty(), kept))
  {
    assert kept == records[..|kept|];
    EveryPrefixIsContiguous(Empty(), records, |kept|);
  }

  /**
   A node's own log, after any crash at any point of any run: it recovers a state that extends the
   replay of everything synced; where the damage left no hole, the state of a prefix of its records,
   which passes the contiguity check.
   */
  lemma NodeRecoversItsLog<C(!new), S(!new)>(tag: FormatTag, crc: Crc, codec: Codec<Logged<C, S>>, states: seq<Wal>,
                                             steps: seq<Step>, i: nat, after: bytes,
                                             d: Result<DecodedLines, FormatError>, records: seq<Logged<C, S>>)
    returns (done: seq<Item>, kept: seq<Logged<C, S>>)
    requires Crashed(tag, crc, codec, states, steps, i, after, d, records) && WellIndexed(Empty<C, S>(), records)
    ensures Recovered(Framed(tag, crc, codec), codec, states[i], after, d, records, done, kept)
    ensures var synced := SyncedCount(states[i]);
            && synced <= |records| && synced <= |kept|
            && ReplayFrom(Empty(), kept) == ReplayFrom(ReplayFrom(Empty(), records[..synced]), kept[synced..])
    ensures Unholed(Framed(tag, crc, codec), states[i], after) ==> Contiguous(ReplayFrom(Empty(), kept))
  {
    done, kept := CrashKeepsRecords(tag, crc, codec, states, steps, i, after, d, records);
    ReplayExtends(records, SyncedCount(states[i]), kept);
    if Unholed(Framed(tag, crc, codec), states[i], after) {
      KeptIsContiguous(records, kept);
    }
  }

  lemma StreamsExtend<C, S>(lines: seq<(TabletId, Logged<C, S>)>, synced: nat, kept: seq<(TabletId, Logged<C, S>)>,
                            t: TabletId)
    requires synced <= |lines| && lines[..synced] <= kept
    ensures StreamOf(lines[..synced], t) <= StreamOf(kept, t)
    ensures kept <= lines ==> StreamOf(kept, t) <= StreamOf(lines, t)
  {
    assert kept[..synced] == lines[..synced];
    TornSharedLog(kept, synced, t);
    if kept <= lines {
      assert kept == lines[..|kept|];
      TornSharedLog(lines, |kept|, t);
    }
  }

  /**
   A log shared by tablets, after any crash at any point of any run: each tablet keeps everything of its
   own stream that was synced; where the damage left no hole, what it keeps is a prefix of its stream.
   */
  lemma TabletsRecoverTheirStreams<C(!new), S(!new)>(tag: FormatTag, crc: Crc, codec: Codec<(TabletId, Logged<C, S>)>,
                                                     states: seq<Wal>, steps: seq<Step>, i: nat, after: bytes,
                                                     d: Result<DecodedLines, FormatError>,
                                                     lines: seq<(TabletId, Logged<C, S>)>, t: TabletId)
    returns (done: seq<Item>, kept: seq<(TabletId, Logged<C, S>)>)
    requires Crashed(tag, crc, codec, states, steps, i, after, d, lines)
    ensures Recovered(Framed(tag, crc, codec), codec, states[i], after, d, lines, done, kept)
    ensures SyncedCount(states[i]) <= |lines|
    ensures StreamOf(lines[..SyncedCount(states[i])], t) <= StreamOf(kept, t)
    ensures Unholed(Framed(tag, crc, codec), states[i], after) ==> StreamOf(kept, t) <= StreamOf(lines, t)
  {
    done, kept := CrashKeepsRecords(tag, crc, codec, states, steps, i, after, d, lines);
    StreamsExtend(lines, SyncedCount(states[i]), kept, t);
  }

  /** Under the simulator's crash, a tear with one overwritten byte, there is never a hole. */
  lemma OneByteCrashKeepsRecords<R(!new)>(tag: FormatTag, crc: Crc, codec: Codec<R>, states: seq<Wal>, steps: seq<Step>,
                                          i: nat, after: bytes, d: Result<DecodedLines, FormatError>, fault: nat,
                                          records: seq<R>) returns (kept: seq<R>)
    requires Crashed(tag, crc, codec, states, steps, i, after, d, records)
    requires OneByteDamage(Render(Framed(tag, crc, codec), states[i].items), after, fault)
    ensures Unholed(Framed(tag, crc, codec), states[i], after)
    ensures d.Ok? && Decoded(codec, Payloads(d.value.lines), kept)
    ensures SyncedCount(states[i]) <= |records| && records[..SyncedCount(states[i])] <= kept <= records
  {
    var _ := FramedCrashRecoversPrefix(tag, crc, codec, states, steps, i, after, d, fault);
    var _, all := CrashKeepsRecords(tag, crc, codec, states, steps, i, after, d, records);
    kept := all;
  }
}

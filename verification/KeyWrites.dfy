/**
 Streams of key writes: the last write to a key decides its row, whether the
 stream is folded onto a copy or merged into a last-writer-wins engine and
 scanned back.
 */
module KeyWrites {
  import opened Wrappers
  import opened MetadataModel
  import opened MarkerRule

  const FORMAT_VERSION_KEY := CounterKey(FormatVersion)

  /** A typed write that removes no counter. */
  predicate Sane(w: KeyWrite) {
    TypedWrite(w) && (w.Delete? ==> !w.key.CounterKey?)
  }

  predicate AllSane(writes: seq<KeyWrite>) {
    forall i :: 0 <= i < |writes| ==> Sane(writes[i])
  }

  lemma SaneWriteSetsItsKey(m: Metadata, w: KeyWrite, key: Key)
    requires Sane(w) && key != FORMAT_VERSION_KEY
    ensures Lookup(ApplyKeyWrite(m, w), key) == if key == w.key then Written(w) else Lookup(m, key)
  {
    if w.key != FORMAT_VERSION_KEY {
      WriteSetsItsKey(m, w, key);
    }
  }

  // --- The last write to a key -----------------------------------------------------------------------

  /** The row the stream leaves at `key`: that of the last write to it, or the row it started with. */
  function RowAfter(start: Option<Row>, writes: seq<KeyWrite>, key: Key): Option<Row> {
    if writes == [] then start
    else if writes[|writes| - 1].key == key then Written(writes[|writes| - 1])
    else RowAfter(start, writes[..|writes| - 1], key)
  }

  lemma {:induction false} FoldLookup(m: Metadata, writes: seq<KeyWrite>, key: Key)
    requires AllSane(writes) && key != FORMAT_VERSION_KEY
    ensures Lookup(Fold(m, writes), key) == RowAfter(Lookup(m, key), writes, key)
    decreases |writes|
  {
    if writes != [] {
      var front, last := writes[..|writes| - 1], writes[|writes| - 1];
      FoldLookup(m, front, key);
      SaneWriteSetsItsKey(Fold(m, front), last, key);
    }
  }

  lemma FoldLookups(m: Metadata, writes: seq<KeyWrite>, n: Metadata)
    requires AllSane(writes)
    requires forall key :: key != FORMAT_VERSION_KEY ==> RowAfter(Lookup(m, key), writes, key) == Lookup(n, key)
    ensures Fold(m, writes) == n
  {
    forall key
      ensures Lookup(Fold(m, writes), key) == Lookup(n, key)
    {
      if key != FORMAT_VERSION_KEY {
        FoldLookup(m, writes, key);
      }
    }
    SameRowsSameMetadata(Fold(m, writes), n);
  }

  predicate Touches(writes: seq<KeyWrite>, key: Key) {
    exists i :: 0 <= i < |writes| && writes[i].key == key
  }

  lemma {:induction false} UntouchedRow(start: Option<Row>, writes: seq<KeyWrite>, key: Key)
    requires !Touches(writes, key)
    ensures RowAfter(start, writes, key) == start
    decreases |writes|
  {
    if writes != [] {
      assert writes[|writes| - 1].key != key;
      var front := writes[..|writes| - 1];
      forall i | 0 <= i < |front|
        ensures front[i].key != key
      {
        assert front[i] == writes[i];
      }
      UntouchedRow(start, front, key);
    }
  }

  /** Where every write to a key leaves the same row, that row is what it ends with. */
  lemma {:induction false} AgreedRow(start: Option<Row>, writes: seq<KeyWrite>, key: Key, row: Option<Row>)
    requires forall i :: 0 <= i < |writes| && writes[i].key == key ==> Written(writes[i]) == row
    ensures RowAfter(start, writes, key) == if Touches(writes, key) then row else start
    decreases |writes|
  {
    if writes != [] {
      var front := writes[..|writes| - 1];
      if writes[|writes| - 1].key == key {
        assert Touches(writes, key);
      } else {
        AgreedRow(start, front, key, row);
        if Touches(writes, key) {
          var i :| 0 <= i < |writes| && writes[i].key == key;
          assert front[i].key == key;
        } else {
          UntouchedRow(start, writes, key);
        }
      }
    }
  }

  lemma {:induction false} RowAfterAppend(start: Option<Row>, a: seq<KeyWrite>, b: seq<KeyWrite>, key: Key)
    ensures RowAfter(start, a + b, key) == RowAfter(RowAfter(start, a, key), b, key)
    decreases |b|
  {
    if b == [] {
      assert a + b == a;
    } else {
      assert (a + b)[..|a + b| - 1] == a + b[..|b| - 1];
      RowAfterAppend(start, a, b[..|b| - 1], key);
    }
  }

  // --- Writes that carry one metadata value to another -------------------------------------------------

  /** Every write states the new row of its key, and every key whose row differs is written. */
  ghost predicate Carries(pre: Metadata, post: Metadata, writes: set<KeyWrite>) {
    && (forall w :: w in writes ==> Sane(w) && w.key != FORMAT_VERSION_KEY && Lookup(post, w.key) == Written(w))
    && (forall key :: Lookup(pre, key) != Lookup(post, key) ==> exists w :: w in writes && w.key == key)
  }

  function SetOf(writes: seq<KeyWrite>): set<KeyWrite> {
    set i | 0 <= i < |writes| :: writes[i]
  }

  /** Such writes, in any order and with any repetition, fold the old value to the new one. */
  lemma CarriesFolds(pre: Metadata, post: Metadata, writes: seq<KeyWrite>)
    requires Carries(pre, post, SetOf(writes))
    ensures AllSane(writes) && Fold(pre, writes) == post
  {
    assert forall i :: 0 <= i < |writes| ==> writes[i] in SetOf(writes);
    forall key | key != FORMAT_VERSION_KEY
      ensures RowAfter(Lookup(pre, key), writes, key) == Lookup(post, key)
    {
      AgreedRow(Lookup(pre, key), writes, key, Lookup(post, key));
      if Lookup(pre, key) != Lookup(post, key) {
        var w :| w in SetOf(writes) && w.key == key;
        var i :| 0 <= i < |writes| && writes[i] == w;
        assert writes[i].key == key;
      }
    }
    FoldLookups(pre, writes, post);
  }

  // --- The last-writer-wins engine --------------------------------------------------------------------------

  /** The engine's live rows after merging the stream in order. */
  function Engine(writes: seq<KeyWrite>): map<Key, Row> {
    if writes == [] then map[]
    else
      var rest := Engine(writes[..|writes| - 1]);
      match writes[|writes| - 1]
      case Put(key, row) => rest[key := row]
      case Delete(key) => rest - {key}
  }

  lemma {:induction false} EngineRow(writes: seq<KeyWrite>, key: Key)
    ensures RowAfter(None, writes, key) == if key in Engine(writes) then Some(Engine(writes)[key]) else None
    decreases |writes|
  {
    if writes != [] {
      EngineRow(writes[..|writes| - 1], key);
    }
  }

  lemma {:induction false} EngineTyped(writes: seq<KeyWrite>)
    requires AllSane(writes)
    ensures forall key :: key in Engine(writes) ==> Typed(key, Engine(writes)[key])
    decreases |writes|
  {
    if writes != [] {
      EngineTyped(writes[..|writes| - 1]);
      assert Sane(writes[|writes| - 1]);
    }
  }

  /** The engine's rows, each once, in any order. */
  ghost predicate Scan(engine: map<Key, Row>, entries: seq<(Key, Row)>) {
    && (forall i :: 0 <= i < |entries| ==> entries[i].0 in engine && engine[entries[i].0] == entries[i].1)
    && (forall key :: key in engine ==> exists i :: 0 <= i < |entries| && entries[i].0 == key)
  }

  function Puts(entries: seq<(Key, Row)>): seq<KeyWrite> {
    seq(|entries|, i requires 0 <= i < |entries| => Put(entries[i].0, entries[i].1))
  }

  /** What was never written has the default row, but for the two counters that always have one. */
  lemma DefaultRow(key: Key)
    ensures key != CounterKey(NextTabletId) && key != CounterKey(ClusterVersion) ==> Lookup(Default(), key) == None
  {
  }

  /** A counter, once put, is in the engine for good: no sane write removes it. */
  lemma {:induction false} CountersStay(start: Option<Row>, writes: seq<KeyWrite>, counter: Counter)
    requires AllSane(writes)
    ensures RowAfter(start, writes, CounterKey(counter))
            == if CounterKey(counter) in Engine(writes) then Some(Engine(writes)[CounterKey(counter)]) else start
    decreases |writes|
  {
    if writes != [] {
      CountersStay(start, writes[..|writes| - 1], counter);
      assert Sane(writes[|writes| - 1]);
    }
  }

  lemma ScannedRow(start: Option<Row>, engine: map<Key, Row>, entries: seq<(Key, Row)>, key: Key)
    requires Scan(engine, entries)
    ensures RowAfter(start, Puts(entries), key) == if key in engine then Some(engine[key]) else start
  {
    AgreedRow(start, Puts(entries), key, if key in engine then Some(engine[key]) else None);
    if key in engine {
      var i :| 0 <= i < |entries| && entries[i].0 == key;
      assert Puts(entries)[i].key == key;
    } else {
      assert forall i :: 0 <= i < |entries| ==> Puts(entries)[i].key == entries[i].0 && entries[i].0 in engine;
    }
  }

  /** Rebuilding from the engine, in any scan order, is folding the whole stream. */
  lemma RebuildIsFold(writes: seq<KeyWrite>, entries: seq<(Key, Row)>)
    requires AllSane(writes) && Scan(Engine(writes), entries)
    ensures AllSane(Puts(entries)) && Fold(Default(), Puts(entries)) == Fold(Default(), writes)
  {
    var engine := Engine(writes);
    EngineTyped(writes);
    forall key | key != FORMAT_VERSION_KEY
      ensures RowAfter(Lookup(Default(), key), Puts(entries), key) == Lookup(Fold(Default(), writes), key)
    {
      FoldLookup(Default(), writes, key);
      ScannedRow(Lookup(Default(), key), engine, entries, key);
      DefaultRow(key);
      if key.CounterKey? {
        CountersStay(Lookup(Default(), key), writes, key.counter);
      } else {
        EngineRow(writes, key);
      }
    }
    FoldLookups(Default(), Puts(entries), Fold(Default(), writes));
  }

  /** A removed counter tells the two apart: the engine forgets it, the copy does not. */
  lemma RemovedCounterDiffers(n: nat)
    requires n > 0
    ensures var writes := [Put(CounterKey(NextTabletId), Count(n)), Delete(CounterKey(NextTabletId))];
            && AllTyped(writes) && Scan(Engine(writes), []) && AllTyped(Puts([]))
            && Fold(Default(), writes).nextTabletId == n && Fold(Default(), Puts([])).nextTabletId == 0
  {
    var put, del := Put(CounterKey(NextTabletId), Count(n)), Delete(CounterKey(NextTabletId));
    var writes := [put, del];
    assert writes[..1] == [put] && [put][..0] == [];
    assert Engine([put]) == map[CounterKey(NextTabletId) := Count(n)];
    assert Engine(writes) == map[];
    assert Fold(Default(), [put]) == ApplyKeyWrite(Default(), put);
  }

  // --- Rebuilding ------------------------------------------------------------------------------------------

  const SYSKV_MIRROR_VERSION := 1

  /** The version row, if the scan has one. */
  function FoundVersion(entries: seq<(Key, Row)>): Option<Row> {
    if entries == [] then None
    else if entries[0].0 == FORMAT_VERSION_KEY then Some(entries[0].1) else FoundVersion(entries[1..])
  }

  function Saturated(n: nat): byte {
    if n < 256 then n else 255
  }

  /** Fold the scanned entries onto the default. */
  method RebuildV1(entries: seq<(Key, Row)>) returns (m: Metadata)
    requires AllTyped(Puts(entries))
    ensures m == Fold(Default(), Puts(entries))
  {
    m := Default();
    ghost var puts := Puts(entries);
    for i := 0 to |entries|
      invariant m == Fold(Default(), puts[..i])
    {
      assert TypedWrite(puts[i]);
      m := ApplyKeyWrite(m, Put(entries[i].0, entries[i].1));
      assert puts[..i + 1][..i] == puts[..i];
    }
    assert puts[..|entries|] == puts;
  }

  /** What a rebuild answers: by the engine's own format version, if it holds anything. */
  ghost predicate Rebuilds(entries: seq<(Key, Row)>, r: Result<Metadata, FormatError>)
    requires AllTyped(Puts(entries))
  {
    && (entries == [] ==> r == Ok(Default()))
    && (entries != [] && FoundVersion(entries).None? ==> r == Err(PreBaselineFormat("syskv-mirror")))
    && (entries != [] && FoundVersion(entries) == Some(Count(1)) ==> r == Ok(Fold(Default(), Puts(entries))))
    && (forall v: nat :: FoundVersion(entries) == Some(Count(v)) && v != 1 ==>
          r == Err(UnsupportedFormatVersion("syskv-mirror", Saturated(v), SYSKV_MIRROR_VERSION)))
  }

  /** The dispatch on the engine's own format version. */
  method RebuildFromEngine(entries: seq<(Key, Row)>) returns (r: Result<Metadata, FormatError>)
    requires AllTyped(Puts(entries))
    ensures Rebuilds(entries, r)
  {
    var found: Option<Row> := None;
    var i := 0;
    while i < |entries| && found.None?
      invariant i <= |entries|
      invariant FoundVersion(entries) == if found.Some? then found else FoundVersion(entries[i..])
    {
      if entries[i].0 == FORMAT_VERSION_KEY {
        found := Some(entries[i].1);
      }
      assert entries[i..][1..] == entries[i + 1..];
      i := i + 1;
    }
    assert found.None? ==> entries[i..] == [];
    FoundIsTyped(entries);
    if |entries| == 0 {
      return Ok(Default());
    }
    match found {
      case None => return Err(PreBaselineFormat("syskv-mirror"));
      case Some(row) =>
        if row.n == 1 {
          var m := RebuildV1(entries);
          return Ok(m);
        }
        return Err(UnsupportedFormatVersion("syskv-mirror", Saturated(row.n), SYSKV_MIRROR_VERSION));
    }
  }

  /** A scan that holds the version row finds it, wherever it is. */
  lemma {:induction false} VersionIsFound(entries: seq<(Key, Row)>, row: Row, at: nat)
    requires at < |entries| && entries[at].0 == FORMAT_VERSION_KEY
    requires forall i :: 0 <= i < |entries| && entries[i].0 == FORMAT_VERSION_KEY ==> entries[i].1 == row
    ensures FoundVersion(entries) == Some(row)
    decreases |entries|
  {
    if entries[0].0 != FORMAT_VERSION_KEY {
      var rest := entries[1..];
      assert forall i :: 0 <= i < |rest| ==> rest[i] == entries[i + 1];
      VersionIsFound(rest, row, at - 1);
    }
  }

  lemma {:induction false} FoundIsTyped(entries: seq<(Key, Row)>)
    requires AllTyped(Puts(entries))
    ensures FoundVersion(entries).Some? ==> FoundVersion(entries).value.Count?
    decreases |entries|
  {
    if entries != [] {
      assert TypedWrite(Puts(entries)[0]);
      assert Puts(entries)[1..] == Puts(entries[1..]);
      FoundIsTyped(entries[1..]);
    }
  }
}

/**
 A history of commands end to end: what the leader's metadata, its watchers'
 copies and an engine rebuild have to do with each other.
 */
module CommandHistory {
  import opened Wrappers
  import opened WalRecords
  import MarkerRule
  import opened MetadataModel
  import opened KeyWrites
  import opened MetaCommands
  import opened Mirror
  import opened MirrorTask
  import opened DeltaRing
  import opened Watch

  /** The metadata after a list of commands, applied to an empty cluster. */
  function AfterAll(rules: Rules, commands: seq<Command>): Metadata {
    if commands == [] then Default()
    else
      var before := AfterAll(rules, commands[..|commands| - 1]);
      After(ApplyCommand(rules, before, commands[|commands| - 1]), before)
  }

  /** Along any list of commands no tablet id is used twice. */
  lemma {:induction false} AfterAllIdsFresh(rules: Rules, commands: seq<Command>)
    ensures IdsFresh(AfterAll(rules, commands))
    decreases |commands|
  {
    if commands == [] {
      DefaultIdsFresh();
    } else {
      var front := commands[..|commands| - 1];
      AfterAllIdsFresh(rules, front);
      CommandKeepsIds(rules, AfterAll(rules, front), commands[|commands| - 1]);
    }
  }

  /** So the tablets a cutover's mirror looks up are there, wherever in a history the cutover is applied. */
  lemma HistoryCutoverReadsLiveTablets(rules: Rules, commands: seq<Command>, parent: TabletId, epoch: nat, wallMs: nat)
    requires ApplyCommand(rules, AfterAll(rules, commands), CutoverSplit(parent, epoch, wallMs)).Applied?
    ensures var post := AfterAll(rules, commands + [CutoverSplit(parent, epoch, wallMs)]);
            var intent := AfterAll(rules, commands).tablets[parent].split.value;
            ChildrenOf(post, parent) == {intent.left, intent.right} <= post.tablets.Keys
  {
    var m, all := AfterAll(rules, commands), commands + [CutoverSplit(parent, epoch, wallMs)];
    assert all[..|all| - 1] == commands;
    AfterAllIdsFresh(rules, commands);
    FreshCutoverHasTwoChildren(rules, m, parent, epoch, wallMs);
  }

  /** The entry pushed for a command: its derived writes in some order, none if it did not apply. */
  ghost predicate EntryFor(rules: Rules, before: Metadata, command: Command, e: Entry) {
    var o := ApplyCommand(rules, before, command);
    if o.Applied? then SetOf(e.writes) == Derived(before, o.meta, command) else e.writes == []
  }

  /** One entry a command, at the command's own log index. */
  ghost predicate HistoryOf(rules: Rules, commands: seq<Command>, h: seq<Entry>) {
    && |h| == |commands|
    && forall i :: 0 <= i < |h| ==>
       h[i].index == i + 1 && EntryFor(rules, AfterAll(rules, commands[..i]), commands[i], h[i])
  }

  lemma EntryAdvances(rules: Rules, before: Metadata, command: Command, e: Entry)
    requires EntryFor(rules, before, command, e)
    ensures AllSane(e.writes) && Fold(before, e.writes) == After(ApplyCommand(rules, before, command), before)
  {
    var o := ApplyCommand(rules, before, command);
    if o.Applied? {
      DerivedCarries(rules, before, command);
      CarriesFolds(before, o.meta, e.writes);
    }
  }

  lemma HistoryIsSane(rules: Rules, commands: seq<Command>, h: seq<Entry>)
    requires HistoryOf(rules, commands, h)
    ensures SaneHistory(h)
  {
    forall i | 0 <= i < |h|
      ensures AllSane(h[i].writes)
    {
      EntryAdvances(rules, AfterAll(rules, commands[..i]), commands[i], h[i]);
    }
  }

  lemma HistoryPrefix(rules: Rules, commands: seq<Command>, h: seq<Entry>, n: nat)
    requires HistoryOf(rules, commands, h) && n <= |h|
    ensures HistoryOf(rules, commands[..n], h[..n])
  {
    forall i | 0 <= i < n
      ensures EntryFor(rules, AfterAll(rules, commands[..n][..i]), commands[..n][i], h[..n][i])
    {
      assert commands[..n][..i] == commands[..i];
    }
  }

  /** Folding the pushed writes up to an index is applying the commands up to it. */
  lemma {:induction false} HistoryIsMetadata(rules: Rules, commands: seq<Command>, h: seq<Entry>)
    requires HistoryOf(rules, commands, h)
    ensures SaneHistory(h) && MetaAt(h, |h|) == AfterAll(rules, commands)
    decreases |h|
  {
    HistoryIsSane(rules, commands, h);
    if h != [] {
      var n := |h| - 1;
      HistoryPrefix(rules, commands, h, n);
      HistoryIsMetadata(rules, commands[..n], h[..n]);
      EntryAdvances(rules, AfterAll(rules, commands[..n]), commands[n], h[n]);
      LastEntry(h);
      FoldAppend(Default(), WritesIn(h[..n], 0, n), h[n].writes);
    }
  }

  lemma {:induction false} BoundedRange(h: seq<Entry>, lo: nat, hi: nat, more: nat)
    requires hi <= more && forall i :: 0 <= i < |h| ==> h[i].index <= hi
    ensures WritesIn(h, lo, more) == WritesIn(h, lo, hi)
    decreases |h|
  {
    if h != [] {
      BoundedRange(h[..|h| - 1], lo, hi, more);
    }
  }

  lemma LastEntry(h: seq<Entry>)
    requires h != [] && SaneHistory(h) && forall i :: 0 <= i < |h| ==> h[i].index == i + 1
    ensures WritesIn(h, 0, |h|) == WritesIn(h[..|h| - 1], 0, |h| - 1) + h[|h| - 1].writes
    ensures AllSane(WritesIn(h[..|h| - 1], 0, |h| - 1))
  {
    var front := h[..|h| - 1];
    assert h[|h| - 1].index == |h|;
    WritesAreSane(front, 0, |h| - 1);
    BoundedRange(front, 0, |h| - 1, |h|);
  }

  lemma MetaOfPrefix(rules: Rules, commands: seq<Command>, h: seq<Entry>, n: nat)
    requires HistoryOf(rules, commands, h) && n <= |h|
    ensures SaneHistory(h) && MetaAt(h, n) == AfterAll(rules, commands[..n])
  {
    HistoryIsSane(rules, commands, h);
    HistoryPrefix(rules, commands, h, n);
    HistoryIsMetadata(rules, commands[..n], h[..n]);
    if n > 0 {
      PrefixRange(h, n, 0, n);
    } else {
      NoWritesOutside(h, 0, 0);
    }
  }

  lemma TopIsLength(rules: Rules, commands: seq<Command>, h: seq<Entry>)
    requires HistoryOf(rules, commands, h)
    ensures Top(h) == |commands|
  {
  }

  /**
   A watcher of these commands, after any run, holds the leader's own metadata at the watcher's mark
   exactly when every row the commands between the two reads of its last full reply changed has been
   written again since; so it does whenever both reads fell on the same index.
   */
  lemma WatcherHoldsLeaderMetadata(rules: Rules, commands: seq<Command>, worlds: seq<World>, steps: seq<Step>, i: nat)
    requires Run(worlds, steps) && i <= |steps| && HistoryOf(rules, commands, worlds[i].h)
    ensures var w := worlds[i];
            && w.mark <= |commands| && w.copiedAt <= |commands| && w.markedAt <= |commands|
            && (w.copy == AfterAll(rules, commands[..w.mark])
                <==> Rewritten(AfterAll(rules, commands[..w.copiedAt]), AfterAll(rules, commands[..w.markedAt]),
                               w.since))
            && (w.copiedAt == w.markedAt ==> w.copy == AfterAll(rules, commands[..w.mark]))
  {
    var w := worlds[i];
    WatcherAgreesIff(worlds, steps, i);
    TopIsLength(rules, commands, w.h);
    MetaOfPrefix(rules, commands, w.h, w.mark);
    MetaOfPrefix(rules, commands, w.h, w.copiedAt);
    MetaOfPrefix(rules, commands, w.h, w.markedAt);
  }

  // --- Rebuilding from the engine ------------------------------------------------------------------------

  const VERSION_ROW := Put(FORMAT_VERSION_KEY, Count(SYSKV_MIRROR_VERSION))

  /** What the apply task has merged into the engine: the commands' writes, and the version row at each batch's end. */
  function Merged(h: seq<Entry>, ends: set<nat>): seq<KeyWrite> {
    if h == [] then []
    else
      var n := |h| - 1;
      Merged(h[..n], ends) + h[n].writes + Closing(n in ends)
  }

  /** Whatever has been merged ends with a batch. */
  predicate WholeBatches(h: seq<Entry>, ends: set<nat>) {
    h != [] ==> |h| - 1 in ends
  }

  lemma VersionRowIsIgnored(m: Metadata)
    ensures AllSane([VERSION_ROW]) && Fold(m, [VERSION_ROW]) == m
  {
    assert [VERSION_ROW][..0] == [];
  }

  /** The version row, at the end of a batch. */
  function Closing(ended: bool): seq<KeyWrite> {
    if ended then [VERSION_ROW] else []
  }

  lemma ClosingIsIgnored(m: Metadata, ended: bool)
    ensures AllSane(Closing(ended)) && Fold(m, Closing(ended)) == m
  {
    VersionRowIsIgnored(m);
  }

  lemma OneMoreMerged(front: seq<KeyWrite>, writes: seq<KeyWrite>, ended: bool, after: Metadata)
    requires AllSane(front) && AllSane(writes) && Fold(Fold(Default(), front), writes) == after
    ensures AllSane(front + writes + Closing(ended)) && Fold(Default(), front + writes + Closing(ended)) == after
  {
    ClosingIsIgnored(after, ended);
    FoldAppend(Default(), front, writes);
    FoldAppend(Default(), front + writes, Closing(ended));
  }

  lemma {:induction false} MergedFolds(rules: Rules, commands: seq<Command>, h: seq<Entry>, ends: set<nat>)
    requires HistoryOf(rules, commands, h)
    ensures AllSane(Merged(h, ends)) && Fold(Default(), Merged(h, ends)) == AfterAll(rules, commands)
    decreases |h|
  {
    if h != [] {
      var n := |h| - 1;
      HistoryPrefix(rules, commands, h, n);
      MergedFolds(rules, commands[..n], h[..n], ends);
      EntryAdvances(rules, AfterAll(rules, commands[..n]), commands[n], h[n]);
      OneMoreMerged(Merged(h[..n], ends), h[n].writes, n in ends, AfterAll(rules, commands));
    }
  }

  lemma MergedVersion(h: seq<Entry>, ends: set<nat>, entries: seq<(Key, Row)>)
    requires h != [] && WholeBatches(h, ends) && Scan(Engine(Merged(h, ends)), entries)
    ensures entries != [] && FoundVersion(entries) == Some(Count(SYSKV_MIRROR_VERSION))
  {
    var merged := Merged(h, ends);
    assert merged[|merged| - 1] == VERSION_ROW;
    var engine := Engine(merged);
    assert FORMAT_VERSION_KEY in engine && engine[FORMAT_VERSION_KEY] == Count(SYSKV_MIRROR_VERSION);
    var at :| 0 <= at < |entries| && entries[at].0 == FORMAT_VERSION_KEY;
    VersionIsFound(entries, Count(SYSKV_MIRROR_VERSION), at);
  }

  /** A rebuild of what the apply task merged, whatever its batches and the scan order, is the leader's metadata. */
  lemma RebuildHoldsLeaderMetadata(rules: Rules, commands: seq<Command>, h: seq<Entry>, ends: set<nat>,
                                   entries: seq<(Key, Row)>)
    requires HistoryOf(rules, commands, h) && WholeBatches(h, ends) && Scan(Engine(Merged(h, ends)), entries)
    ensures AllTyped(Puts(entries))
    ensures forall r :: Rebuilds(entries, r) ==> r == Ok(AfterAll(rules, commands))
  {
    MergedFolds(rules, commands, h, ends);
    RebuildIsFold(Merged(h, ends), entries);
    if h == [] {
      assert entries == [];
    } else {
      MergedVersion(h, ends, entries);
    }
  }

  /** A node that restarts seeds its metadata from its engine. */
  method SeedMetadata(ghost rules: Rules, ghost commands: seq<Command>, ghost h: seq<Entry>, ghost ends: set<nat>,
                      entries: seq<(Key, Row)>) returns (r: Result<Metadata, MarkerRule.FormatError>)
    requires HistoryOf(rules, commands, h) && WholeBatches(h, ends) && Scan(Engine(Merged(h, ends)), entries)
    ensures r == Ok(AfterAll(rules, commands))
  {
    RebuildHoldsLeaderMetadata(rules, commands, h, ends, entries);
    r := RebuildFromEngine(entries);
  }

  /** An engine merged before the version row was written, by an older binary, is refused by name. */
  lemma UnversionedEngineIsRefused(rules: Rules, commands: seq<Command>, h: seq<Entry>, entries: seq<(Key, Row)>)
    requires HistoryOf(rules, commands, h) && Scan(Engine(Merged(h, {})), entries) && entries != []
    ensures AllTyped(Puts(entries))
    ensures forall r :: Rebuilds(entries, r) ==> r == Err(MarkerRule.PreBaselineFormat("syskv-mirror"))
  {
    MergedFolds(rules, commands, h, {});
    RebuildIsFold(Merged(h, {}), entries);
    NoVersionWritten(rules, commands, h);
    EngineRow(Merged(h, {}), FORMAT_VERSION_KEY);
    UntouchedRow(None, Merged(h, {}), FORMAT_VERSION_KEY);
    NoVersionFound(entries);
  }

  lemma {:induction false} NoVersionWritten(rules: Rules, commands: seq<Command>, h: seq<Entry>)
    requires HistoryOf(rules, commands, h)
    ensures !Touches(Merged(h, {}), FORMAT_VERSION_KEY)
    decreases |h|
  {
    if h != [] {
      var n := |h| - 1;
      HistoryPrefix(rules, commands, h, n);
      NoVersionWritten(rules, commands[..n], h[..n]);
      EntryHasNoVersion(rules, AfterAll(rules, commands[..n]), commands[n], h[n]);
    }
  }

  lemma EntryHasNoVersion(rules: Rules, before: Metadata, command: Command, e: Entry)
    requires EntryFor(rules, before, command, e)
    ensures !Touches(e.writes, FORMAT_VERSION_KEY)
  {
    if ApplyCommand(rules, before, command).Applied? {
      DerivedCarries(rules, before, command);
      forall i | 0 <= i < |e.writes|
        ensures e.writes[i].key != FORMAT_VERSION_KEY
      {
        assert e.writes[i] in SetOf(e.writes);
      }
    }
  }

  lemma {:induction false} NoVersionFound(entries: seq<(Key, Row)>)
    requires forall i :: 0 <= i < |entries| ==> entries[i].0 != FORMAT_VERSION_KEY
    ensures FoundVersion(entries) == None
    decreases |entries|
  {
    if entries != [] {
      NoVersionFound(entries[1..]);
    }
  }
}

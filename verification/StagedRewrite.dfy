/**
 Compaction by a staged rewrite: the image is written aside without the lock
 while persist rounds go on appending to the live file, their records are also
 kept in a tail, and the tail is drained into the staged file before the swap.

 The staged file always replays to the core's state.  The live file, which
 still has the old snapshot base, does so only while no log truncation is
 recorded: a truncation counts entries from the core's new base.
 */
module StagedRewrite {
  import opened Wrappers
  import opened WalRecords

  // --- The step system ---------------------------------------------------------------------------

  /** The records of a file being staged, and those landed since it last caught up. */
  datatype Staging<C, S> = Staging(file: seq<WalRecord<C, S>>, tail: seq<WalRecord<C, S>>)

  datatype Wal<C, S> = Wal(core: PersistedState<C, S>, live: seq<WalRecord<C, S>>, staging: Option<Staging<C, S>>)

  datatype Step<C, S> =
    | Round(records: seq<WalRecord<C, S>>)
    | Capture(k: nat, base: SnapshotBase<S>, config: Option<set<NodeId>>, learners: Option<set<NodeId>>)
    | CatchUp
    | Swap
    | Abandon

  /** The core's state once its snapshot base has moved over the first `k` log entries. */
  function Compacted<C, S>(core: PersistedState<C, S>, k: nat, base: SnapshotBase<S>,
                           config: Option<set<NodeId>>, learners: Option<set<NodeId>>): PersistedState<C, S>
    requires k <= |core.log|
  {
    core.(log := core.log[k..], snapshot := Some(base), snapshotConfig := config, snapshotLearners := learners)
  }

  /** The same, at a base that may not have moved: an install already recorded is rewritten where it stands. */
  function CompactedBy<C, S>(core: PersistedState<C, S>, k: nat, base: SnapshotBase<S>,
                             config: Option<set<NodeId>>, learners: Option<set<NodeId>>): PersistedState<C, S>
    requires k <= |core.log|
  {
    if k == 0 then core else Compacted(core, k, base, config, learners)
  }

  /** A round lands in the live file and, while a rewrite is staging, in the tail. */
  function AfterRound<C, S>(s: Wal<C, S>, records: seq<WalRecord<C, S>>): Wal<C, S> {
    Wal(ReplayFrom(s.core, records), s.live + records,
        if s.staging.Some? then Some(s.staging.value.(tail := s.staging.value.tail + records)) else None)
  }

  function Drained<C, S>(g: Staging<C, S>): Staging<C, S> {
    Staging(g.file + g.tail, [])
  }

  ghost predicate Next<C, S>(s: Wal<C, S>, step: Step<C, S>, s': Wal<C, S>) {
    match step
    case Round(records) => RealSnapshots(records) && s' == AfterRound(s, records)
    case Capture(k, base, config, learners) =>
      && s.staging.None? && k <= |s.core.log| && base.lastIndex == Base(s.core) + k
      && var core := CompactedBy(s.core, k, base, config, learners);
         s' == Wal(core, s.live, Some(Staging(Image(core), [])))
    case CatchUp => s.staging.Some? && s' == s.(staging := Some(Drained(s.staging.value)))
    case Swap => s.staging.Some? && s' == s.(live := Drained(s.staging.value).file, staging := None)
    case Abandon => s.staging.Some? && s' == s.(staging := None)
  }

  function Start<C, S>(): Wal<C, S> {
    Wal(Empty(), [], None)
  }

  ghost predicate Run<C, S>(states: seq<Wal<C, S>>, steps: seq<Step<C, S>>) {
    && |states| == |steps| + 1 && states[0] == Start()
    && forall i :: 0 <= i < |steps| ==> Next(states[i], steps[i], states[i + 1])
  }

  // --- The staged file -------------------------------------------------------------------------------

  predicate StagedIsCore<C(==), S(==)>(s: Wal<C, S>) {
    && RealBase(s.core)
    && (s.staging.Some? ==> ReplayFrom(Empty(), s.staging.value.file + s.staging.value.tail) == s.core)
  }

  lemma StagedStep<C, S>(s: Wal<C, S>, step: Step<C, S>, s': Wal<C, S>)
    requires StagedIsCore(s) && Next(s, step, s')
    ensures StagedIsCore(s')
    ensures step.Swap? ==> ReplayFrom(Empty(), s'.live) == s'.core
  {
    match step
    case Round(records) =>
      RealBaseKept(s.core, records);
      if s.staging.Some? {
        var g := s.staging.value;
        ReplayAppend(Empty(), g.file + g.tail, records);
        assert g.file + (g.tail + records) == g.file + g.tail + records;
      }
    case Capture(k, base, config, learners) =>
      var core := CompactedBy(s.core, k, base, config, learners);
      ImageIsExact(core);
      assert Image(core) + [] == Image(core);
    case CatchUp =>
      var g := s.staging.value;
      assert Drained(g).file + Drained(g).tail == g.file + g.tail;
    case _ =>
  }

  /** In every run, the staged file and its tail replay to the core's state, so the swap always installs it. */
  lemma {:induction false} StagedFileIsExact<C, S>(states: seq<Wal<C, S>>, steps: seq<Step<C, S>>, i: nat)
    requires Run(states, steps) && i <= |steps|
    ensures StagedIsCore(states[i])
    ensures i < |steps| && steps[i].Swap? ==> ReplayFrom(Empty(), states[i + 1].live) == states[i + 1].core
  {
    if i > 0 {
      StagedFileIsExact(states, steps, i - 1);
      StagedStep(states[i - 1], steps[i - 1], states[i]);
    }
    if i < |steps| {
      StagedStep(states[i], steps[i], states[i + 1]);
    }
  }

  // --- The live file ---------------------------------------------------------------------------------

  /** `live` is `core` with `k` older entries still under an older base. */
  predicate Lags<C(==), S>(live: PersistedState<C, S>, core: PersistedState<C, S>, k: nat) {
    && live.term == core.term && live.votedFor == core.votedFor
    && Base(live) + k == Base(core)
    && k <= |live.log| && live.log[k..] == core.log
  }

  /** The live file recovers to the core's log, entry for entry at the same indexes. */
  predicate Agrees<C(==), S>(live: PersistedState<C, S>, core: PersistedState<C, S>) {
    Base(live) <= Base(core) && Lags(live, core, Base(core) - Base(live))
  }

  /** `live` has the core's hard state and base but too few entries. */
  predicate Short<C, S>(live: PersistedState<C, S>, core: PersistedState<C, S>, k: nat) {
    && live.term == core.term && live.votedFor == core.votedFor
    && Base(live) + k == Base(core) && k > 0 && |live.log| < k + |core.log|
  }

  /** How far the live base is behind, and whether a truncation was recorded meanwhile. */
  datatype Skew = Skew(k: nat, cut: bool)

  function SkewAfter<C, S>(skew: Skew, core: PersistedState<C, S>, record: WalRecord<C, S>): Skew {
    match record
    case Snapshot(_, _, _, _, _) => Skew(0, false)
    case Truncate(keep) => skew.(cut := skew.cut || (skew.k > 0 && keep < skew.k + |core.log|))
    case _ => skew
  }

  function SkewAfterAll<C, S>(skew: Skew, core: PersistedState<C, S>, records: seq<WalRecord<C, S>>): Skew
    decreases |records|
  {
    if records == [] then skew
    else SkewAfterAll(SkewAfter(skew, core, records[0]), Apply(core, records[0]), records[1..])
  }

  /** What the skew says of the live file. */
  predicate Tracks<C(==), S>(skew: Skew, live: PersistedState<C, S>, core: PersistedState<C, S>) {
    if skew.cut then Short(live, core, skew.k) else Lags(live, core, skew.k)
  }

  lemma TracksRecord<C, S>(skew: Skew, live: PersistedState<C, S>, core: PersistedState<C, S>, record: WalRecord<C, S>)
    requires Tracks(skew, live, core)
    ensures Tracks(SkewAfter(skew, core, record), Apply(live, record), Apply(core, record))
  {
    match record
    case Append(entry) =>
      if !skew.cut {
        assert (live.log + [entry])[skew.k..] == live.log[skew.k..] + [entry];
      }
    case Truncate(keep) =>
      if !skew.cut && skew.k == 0 {
        assert live.log[0..] == live.log;
      }
    case _ =>
  }

  lemma {:induction false} TracksRecords<C, S>(skew: Skew, live: PersistedState<C, S>, core: PersistedState<C, S>,
                                               records: seq<WalRecord<C, S>>)
    requires Tracks(skew, live, core)
    ensures Tracks(SkewAfterAll(skew, core, records), ReplayFrom(live, records), ReplayFrom(core, records))
    decreases |records|
  {
    if records != [] {
      TracksRecord(skew, live, core, records[0]);
      TracksRecords(SkewAfter(skew, core, records[0]), Apply(live, records[0]), Apply(core, records[0]), records[1..]);
    }
  }

  /** The skew over a run: a capture moves the base, a swap or a recorded snapshot closes the gap. */
  function SkewStep<C, S>(skew: Skew, s: Wal<C, S>, step: Step<C, S>): Skew {
    match step
    case Round(records) => SkewAfterAll(skew, s.core, records)
    case Capture(k, _, _, _) => skew.(k := skew.k + k)
    case Swap => Skew(0, false)
    case _ => skew
  }

  function SkewAt<C, S>(states: seq<Wal<C, S>>, steps: seq<Step<C, S>>, i: nat): Skew
    requires i <= |steps| < |states|
  {
    if i == 0 then Skew(0, false) else SkewStep(SkewAt(states, steps, i - 1), states[i - 1], steps[i - 1])
  }

  predicate LiveTracked<C(==), S(==)>(skew: Skew, s: Wal<C, S>) {
    StagedIsCore(s) && Tracks(skew, ReplayFrom(Empty(), s.live), s.core)
  }

  /** Moving the core's base over `k` entries leaves the live file that much further behind. */
  lemma TracksCompacted<C, S>(skew: Skew, live: PersistedState<C, S>, core: PersistedState<C, S>, k: nat,
                              base: SnapshotBase<S>, config: Option<set<NodeId>>, learners: Option<set<NodeId>>)
    requires Tracks(skew, live, core) && k <= |core.log| && base.lastIndex == Base(core) + k
    ensures Tracks(skew.(k := skew.k + k), live, CompactedBy(core, k, base, config, learners))
  {
    if !skew.cut {
      assert live.log[skew.k + k..] == live.log[skew.k..][k..];
    }
  }

  lemma TracksItself<C, S>(st: PersistedState<C, S>)
    ensures Tracks(Skew(0, false), st, st)
  {
    assert st.log[0..] == st.log;
  }

  lemma TracksStep<C, S>(skew: Skew, s: Wal<C, S>, step: Step<C, S>, s': Wal<C, S>)
    requires LiveTracked(skew, s) && Next(s, step, s')
    ensures LiveTracked(SkewStep(skew, s, step), s')
  {
    StagedStep(s, step, s');
    var live := ReplayFrom(Empty<C, S>(), s.live);
    match step
    case Round(records) =>
      ReplayAppend(Empty(), s.live, records);
      TracksRecords(skew, live, s.core, records);
    case Capture(k, base, config, learners) => TracksCompacted(skew, live, s.core, k, base, config, learners);
    case Swap => TracksItself(s'.core);
    case _ =>
  }

  lemma {:induction false} TracksRun<C, S>(states: seq<Wal<C, S>>, steps: seq<Step<C, S>>, i: nat)
    requires Run(states, steps) && i <= |steps|
    ensures LiveTracked(SkewAt(states, steps, i), states[i])
  {
    if i > 0 {
      TracksRun(states, steps, i - 1);
      TracksStep(SkewAt(states, steps, i - 1), states[i - 1], steps[i - 1], states[i]);
    }
  }

  /**
   In every run, the live file recovers to the core's log exactly when no truncation was
   recorded between a capture and the swap, or the snapshot record, that closes it.
   */
  lemma LiveFileAgreesIff<C, S>(states: seq<Wal<C, S>>, steps: seq<Step<C, S>>, i: nat)
    requires Run(states, steps) && i <= |steps|
    ensures Agrees(ReplayFrom(Empty(), states[i].live), states[i].core) <==> !SkewAt(states, steps, i).cut
  {
    TracksRun(states, steps, i);
  }

  // --- The failing case, concretely ----------------------------------------------------------------------

  function Entry(index: nat, term: nat): LogEntry<nat> {
    LogEntry(index, term, 0, None, None)
  }

  function ThreeEntries(): seq<WalRecord<nat, nat>> {
    [Append(Entry(1, 1)), Append(Entry(2, 1)), Append(Entry(3, 1))]
  }

  /** Entry 3 conflicts: cut the core's log to no entries past its base, and append the leader's entry. */
  function Conflict(): seq<WalRecord<nat, nat>> {
    [Truncate(0), Append(Entry(3, 2))]
  }

  function LostRun(): (seq<Wal<nat, nat>>, seq<Step<nat, nat>>) {
    var base := SnapshotBase(0, 2, 1);
    var s1 := AfterRound(Start(), ThreeEntries());
    var core := Compacted(PersistedState(0, None, [Entry(1, 1), Entry(2, 1), Entry(3, 1)], None, None, None), 2, base,
                          None, None);
    var s2 := Wal(core, ThreeEntries(), Some(Staging(Image(core), [])));
    var s3 := AfterRound(s2, Conflict());
    ([Start(), s1, s2, s3], [Round(ThreeEntries()), Capture(2, base, None, None), Round(Conflict())])
  }

  /**
   Entries 1 to 3 are persisted, a compaction moves the base to 2, and a conflicting entry 3
   arrives before the swap: the live file replays to the new entry alone, at the first
   position of a log with no base, and recovery refuses it.
   */
  lemma TruncationBeforeSwapLosesTheLog()
    ensures Run(LostRun().0, LostRun().1)
    ensures LostRun().0[3].core.log == [Entry(3, 2)] && Base(LostRun().0[3].core) == 2
    ensures var live := ReplayFrom(Empty(), LostRun().0[3].live);
            live.log == [Entry(3, 2)] && Base(live) == 0 && !Agrees(live, LostRun().0[3].core) && !Contiguous(live)
  {
    var (states, steps) := LostRun();
    ReplayThree(Empty());
    ReplayConflict(states[2].core);
    ReplayAppend(Empty(), ThreeEntries(), Conflict());
    ReplayConflict(ReplayFrom(Empty(), ThreeEntries()));
    assert [] + ThreeEntries() == ThreeEntries();
    assert ReplayFrom(Empty(), states[3].live).log[0].index == 3;
  }

  lemma ReplayThree(st: PersistedState<nat, nat>)
    requires st.log == []
    ensures ReplayFrom(st, ThreeEntries()) == st.(log := [Entry(1, 1), Entry(2, 1), Entry(3, 1)])
  {
    var records := ThreeEntries();
    assert records == Appends<nat, nat>([Entry(1, 1), Entry(2, 1), Entry(3, 1)]);
    ReplayAppends(st, [Entry(1, 1), Entry(2, 1), Entry(3, 1)]);
    assert [] + [Entry(1, 1), Entry(2, 1), Entry(3, 1)] == [Entry(1, 1), Entry(2, 1), Entry(3, 1)];
  }

  lemma ReplayConflict(st: PersistedState<nat, nat>)
    ensures ReplayFrom(st, Conflict()) == st.(log := [Entry(3, 2)])
  {
    var records := Conflict();
    assert records[1..] == [Append(Entry(3, 2))] && records[1..][1..] == [];
    calc {
      ReplayFrom(st, records);
      ReplayFrom(Apply(st, Truncate(0)), records[1..]);
      ReplayFrom(Apply(Apply(st, Truncate(0)), Append(Entry(3, 2))), []);
    }
  }
}

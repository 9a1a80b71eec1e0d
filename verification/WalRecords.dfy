/**
 Durable Raft state: the write-ahead-log records, their replay, the minimal
 image a compaction writes in their place, the positional check on a replayed
 log, and the demultiplexing of a log shared by several tablets.
 */
module WalRecords {
  import opened Wrappers

  type NodeId = string
  type TabletId = nat

  datatype LogEntry<C> = LogEntry(index: nat, term: nat, command: C,
                                  config: Option<set<NodeId>>, learners: Option<set<NodeId>>)

  datatype WalRecord<C, S> =
    | Hard(term: nat, votedFor: Option<NodeId>)
    | Append(entry: LogEntry<C>)
    | Truncate(keep: nat)
    | Snapshot(metadata: S, lastIndex: nat, lastTerm: nat,
               config: Option<set<NodeId>>, learners: Option<set<NodeId>>)

  datatype SnapshotBase<S> = SnapshotBase(metadata: S, lastIndex: nat, lastTerm: nat)

  datatype PersistedState<C, S> = PersistedState(
    term: nat,
    votedFor: Option<NodeId>,
    log: seq<LogEntry<C>>,
    snapshot: Option<SnapshotBase<S>>,
    snapshotConfig: Option<set<NodeId>>,
    snapshotLearners: Option<set<NodeId>>)

  function Empty<C, S>(): PersistedState<C, S> {
    PersistedState(0, None, [], None, None, None)
  }

  // --- Replay --------------------------------------------------------------------

  function Truncated<C>(log: seq<LogEntry<C>>, keep: nat): seq<LogEntry<C>> {
    if keep < |log| then log[..keep] else log
  }

  /** One record's effect on the durable state. */
  function Apply<C, S>(st: PersistedState<C, S>, record: WalRecord<C, S>): PersistedState<C, S> {
    match record
    case Hard(term, votedFor) => st.(term := term, votedFor := votedFor)
    case Append(entry) => st.(log := st.log + [entry])
    case Truncate(keep) => st.(log := Truncated(st.log, keep))
    case Snapshot(metadata, lastIndex, lastTerm, config, learners) =>
      st.(log := [], snapshot := Some(SnapshotBase(metadata, lastIndex, lastTerm)),
          snapshotConfig := config, snapshotLearners := learners)
  }

  function ReplayFrom<C, S>(st: PersistedState<C, S>, records: seq<WalRecord<C, S>>): PersistedState<C, S>
    decreases |records|
  {
    if records == [] then st else ReplayFrom(Apply(st, records[0]), records[1..])
  }

  lemma {:induction false} ReplayAppend<C, S>(st: PersistedState<C, S>, a: seq<WalRecord<C, S>>,
                                              b: seq<WalRecord<C, S>>)
    ensures ReplayFrom(st, a + b) == ReplayFrom(ReplayFrom(st, a), b)
    decreases |a|
  {
    if a == [] {
      assert a + b == b;
    } else {
      assert (a + b)[1..] == a[1..] + b;
      ReplayAppend(Apply(st, a[0]), a[1..], b);
    }
  }

  method Replay<C, S>(records: seq<WalRecord<C, S>>) returns (state: PersistedState<C, S>)
    ensures state == ReplayFrom(Empty(), records)
  {
    state := Empty();
    for i := 0 to |records|
      invariant ReplayFrom(Empty(), records) == ReplayFrom(state, records[i..])
    {
      match records[i]
      case Hard(term, votedFor) => state := state.(term := term, votedFor := votedFor);
      case Append(entry) => state := state.(log := state.log + [entry]);
      case Truncate(keep) => if keep < |state.log| { state := state.(log := state.log[..keep]); }
      case Snapshot(metadata, lastIndex, lastTerm, config, learners) =>
        state := state.(log := [], snapshot := Some(SnapshotBase(metadata, lastIndex, lastTerm)));
        state := state.(snapshotConfig := config, snapshotLearners := learners);
      assert records[i..][1..] == records[i + 1..];
    }
  }

  // --- The compaction image --------------------------------------------------------

  function Appends<C, S>(log: seq<LogEntry<C>>): seq<WalRecord<C, S>> {
    seq(|log|, i requires 0 <= i < |log| => Append(log[i]))
  }

  /** The snapshot if there is one, the hard state, and the log tail. */
  function Image<C, S>(st: PersistedState<C, S>): seq<WalRecord<C, S>> {
    (if st.snapshot.Some? && st.snapshot.value.lastIndex > 0 then
       var b := st.snapshot.value;
       [Snapshot(b.metadata, b.lastIndex, b.lastTerm, st.snapshotConfig, st.snapshotLearners)]
     else [])
    + [Hard(st.term, st.votedFor)] + Appends(st.log)
  }

  /** A snapshot covers something, and membership is only recorded by a snapshot. */
  predicate RealBase<C, S>(st: PersistedState<C, S>) {
    && (st.snapshot.Some? ==> st.snapshot.value.lastIndex > 0)
    && (st.snapshot.None? ==> st.snapshotConfig.None? && st.snapshotLearners.None?)
  }

  lemma {:induction false} ReplayAppends<C, S>(st: PersistedState<C, S>, log: seq<LogEntry<C>>)
    ensures ReplayFrom(st, Appends<C, S>(log)) == st.(log := st.log + log)
    decreases |log|
  {
    if log != [] {
      var records := Appends<C, S>(log);
      assert records[1..] == Appends<C, S>(log[1..]);
      ReplayAppends(Apply(st, records[0]), log[1..]);
      assert st.log + [log[0]] + log[1..] == st.log + log;
    } else {
      assert st.log + log == st.log;
    }
  }

  /** The image replays to the state it was taken from, exactly when that state has a real base. */
  lemma ImageIsExact<C, S>(st: PersistedState<C, S>)
    ensures ReplayFrom(Empty(), Image(st)) == st <==> RealBase(st)
  {
    var head := Image(st)[..|Image(st)| - |st.log|];
    assert Image(st) == head + Appends(st.log);
    ReplayAppend(Empty(), head, Appends(st.log));
    ReplayAppends(ReplayFrom(Empty(), head), st.log);
    assert [] + st.log == st.log;
    var hard: WalRecord<C, S> := Hard(st.term, st.votedFor);
    assert [hard][1..] == [];
    if |head| == 2 {
      assert head[1..] == [hard];
      calc {
        ReplayFrom(Empty(), head);
        ReplayFrom(Apply(Empty(), head[0]), [hard]);
        ReplayFrom(Apply(Apply(Empty(), head[0]), hard), []);
        Apply(Apply(Empty(), head[0]), hard);
      }
    } else {
      assert head == [hard];
    }
  }

  /** Replacing a log by its image preserves the replay of every later suffix. */
  lemma ImageThenSuffix<C, S>(st: PersistedState<C, S>, suffix: seq<WalRecord<C, S>>)
    requires RealBase(st)
    ensures ReplayFrom(Empty(), Image(st) + suffix) == ReplayFrom(st, suffix)
  {
    ImageIsExact(st);
    ReplayAppend(Empty(), Image(st), suffix);
  }

  /** The records a core emits: a snapshot record always covers something. */
  predicate RealSnapshots<C, S>(records: seq<WalRecord<C, S>>) {
    forall i :: 0 <= i < |records| && records[i].Snapshot? ==> records[i].lastIndex > 0
  }

  lemma {:induction false} RealBaseKept<C, S>(st: PersistedState<C, S>, records: seq<WalRecord<C, S>>)
    requires RealBase(st) && RealSnapshots(records)
    ensures RealBase(ReplayFrom(st, records))
    decreases |records|
  {
    if records != [] {
      RealBaseKept(Apply(st, records[0]), records[1..]);
    }
  }

  // --- Positional contiguity ---------------------------------------------------------

  function Base<C, S>(st: PersistedState<C, S>): nat {
    if st.snapshot.Some? then st.snapshot.value.lastIndex else 0
  }

  predicate Contiguous<C, S>(st: PersistedState<C, S>) {
    forall i :: 0 <= i < |st.log| ==> st.log[i].index == Base(st) + 1 + i
  }

  /** The recovery check; `Err` names the first position whose entry carries another index. */
  method CheckLogContiguous<C, S>(st: PersistedState<C, S>) returns (r: Result<(), nat>)
    ensures r.Ok? <==> Contiguous(st)
    ensures r.Err? ==> r.error < |st.log| && st.log[r.error].index != Base(st) + 1 + r.error
                       && forall i :: 0 <= i < r.error ==> st.log[i].index == Base(st) + 1 + i
  {
    var base := if st.snapshot.Some? then st.snapshot.value.lastIndex else 0;
    for pos := 0 to |st.log|
      invariant forall i :: 0 <= i < pos ==> st.log[i].index == base + 1 + i
    {
      if st.log[pos].index != base + 1 + pos {
        return Err(pos);
      }
    }
    return Ok(());
  }

  /** Every append carries the position it will get: base + length + 1. */
  predicate WellIndexed<C, S>(st: PersistedState<C, S>, records: seq<WalRecord<C, S>>)
    decreases |records|
  {
    records == [] ||
    (&& (records[0].Append? ==> records[0].entry.index == Base(st) + |st.log| + 1)
     && WellIndexed(Apply(st, records[0]), records[1..]))
  }

  /** Cut anywhere, a well-indexed stream replays to a log that passes the check. */
  lemma {:induction false} EveryPrefixIsContiguous<C, S>(st: PersistedState<C, S>, records: seq<WalRecord<C, S>>,
                                                         n: nat)
    requires Contiguous(st) && WellIndexed(st, records) && n <= |records|
    ensures Contiguous(ReplayFrom(st, records[..n]))
    decreases n
  {
    if n > 0 {
      assert records[..n][1..] == records[1..][..n - 1];
      EveryPrefixIsContiguous(Apply(st, records[0]), records[1..], n - 1);
    }
  }

  // --- Logs shared by several tablets ----------------------------------------------------

  /** Tablet `t`'s own records, in the order they appear in the shared file. */
  function StreamOf<R>(lines: seq<(TabletId, R)>, t: TabletId): seq<R> {
    if lines == [] then []
    else
      var rest := StreamOf(lines[..|lines| - 1], t);
      if lines[|lines| - 1].0 == t then rest + [lines[|lines| - 1].1] else rest
  }

  predicate Mentions<R>(lines: seq<(TabletId, R)>, t: TabletId) {
    exists i :: 0 <= i < |lines| && lines[i].0 == t
  }

  lemma {:induction false} StreamAppend<R>(a: seq<(TabletId, R)>, b: seq<(TabletId, R)>, t: TabletId)
    ensures StreamOf(a + b, t) == StreamOf(a, t) + StreamOf(b, t)
    decreases |b|
  {
    if b == [] {
      assert a + b == a;
    } else {
      assert (a + b)[..|a + b| - 1] == a + b[..|b| - 1];
      StreamAppend(a, b[..|b| - 1], t);
    }
  }

  lemma {:induction false} StreamIsEmpty<R>(lines: seq<(TabletId, R)>, t: TabletId)
    ensures StreamOf(lines, t) == [] <==> !Mentions(lines, t)
    decreases |lines|
  {
    if lines != [] {
      var front := lines[..|lines| - 1];
      StreamIsEmpty(front, t);
      if Mentions(front, t) {
        var i :| 0 <= i < |front| && front[i].0 == t;
        assert lines[i].0 == t;
      } else if lines[|lines| - 1].0 != t {
        forall i | 0 <= i < |lines|
          ensures lines[i].0 != t
        {
          assert i < |front| ==> lines[i] == front[i];
        }
      }
    }
  }

  /** Group the file's lines by tablet and replay each group; an absent tablet has no entry. */
  method ReplayMultiplexed<C, S>(lines: seq<(TabletId, WalRecord<C, S>)>)
    returns (states: map<TabletId, PersistedState<C, S>>)
    ensures forall t :: t in states <==> Mentions(lines, t)
    ensures forall t :: t in states ==> states[t] == ReplayFrom(Empty(), StreamOf(lines, t))
  {
    var grouped: map<TabletId, seq<WalRecord<C, S>>> := map[];
    for i := 0 to |lines|
      invariant forall t :: t in grouped <==> StreamOf(lines[..i], t) != []
      invariant forall t :: t in grouped ==> grouped[t] == StreamOf(lines[..i], t)
    {
      var (tablet, record) := lines[i];
      var soFar := if tablet in grouped then grouped[tablet] else [];
      grouped := grouped[tablet := soFar + [record]];
      assert lines[..i + 1][..i] == lines[..i];
    }
    assert lines[..|lines|] == lines;
    forall t
      ensures StreamOf(lines, t) == [] <==> !Mentions(lines, t)
    {
      StreamIsEmpty(lines, t);
    }
    states := map[];
    var todo := grouped.Keys;
    while todo != {}
      invariant todo <= grouped.Keys && states.Keys == grouped.Keys - todo
      invariant forall t :: t in states ==> states[t] == ReplayFrom(Empty(), grouped[t])
      decreases |todo|
    {
      var t :| t in todo;
      var state := Replay(grouped[t]);
      states := states[t := state];
      todo := todo - {t};
    }
  }

  /** However the shared file is cut, each tablet keeps a prefix of its own records, with all before the cut. */
  lemma TornSharedLog<R>(lines: seq<(TabletId, R)>, k: nat, t: TabletId)
    requires k <= |lines|
    ensures StreamOf(lines[..k], t) <= StreamOf(lines, t)
  {
    assert lines == lines[..k] + lines[k..];
    StreamAppend(lines[..k], lines[k..], t);
  }

  /** The whole-file image: each tablet's records under its tag, one tablet after another. */
  function MultiplexedImage<R>(perTablet: seq<(TabletId, seq<R>)>): seq<(TabletId, R)> {
    if perTablet == [] then []
    else
      var (t, records) := perTablet[|perTablet| - 1];
      MultiplexedImage(perTablet[..|perTablet| - 1]) + Tagged(t, records)
  }

  function Tagged<R>(t: TabletId, records: seq<R>): seq<(TabletId, R)> {
    seq(|records|, i requires 0 <= i < |records| => (t, records[i]))
  }

  lemma {:induction false} StreamOfTagged<R>(tag: TabletId, records: seq<R>, t: TabletId)
    ensures StreamOf(Tagged(tag, records), t) == if t == tag then records else []
    decreases |records|
  {
    if records != [] {
      var front := records[..|records| - 1];
      assert Tagged(tag, records)[..|records| - 1] == Tagged(tag, front);
      StreamOfTagged(tag, front, t);
      assert front + [records[|records| - 1]] == records;
    }
  }

  /** Demultiplexing an image gives each tablet back its own records. */
  lemma {:induction false} ImageDemultiplexes<R>(perTablet: seq<(TabletId, seq<R>)>, t: TabletId)
    requires forall i, j :: 0 <= i < j < |perTablet| ==> perTablet[i].0 != perTablet[j].0
    ensures forall i :: 0 <= i < |perTablet| && perTablet[i].0 == t ==>
              StreamOf(MultiplexedImage(perTablet), t) == perTablet[i].1
    ensures (forall i :: 0 <= i < |perTablet| ==> perTablet[i].0 != t) ==>
              StreamOf(MultiplexedImage(perTablet), t) == []
    decreases |perTablet|
  {
    if perTablet != [] {
      var front, last := perTablet[..|perTablet| - 1], perTablet[|perTablet| - 1];
      ImageDemultiplexes(front, t);
      StreamAppend(MultiplexedImage(front), Tagged(last.0, last.1), t);
      StreamOfTagged(last.0, last.1, t);
      if last.0 == t {
        assert forall i :: 0 <= i < |front| ==> front[i].0 == perTablet[i].0 != t;
      } else {
        assert forall i :: 0 <= i < |front| ==> front[i] == perTablet[i];
      }
    }
  }
}

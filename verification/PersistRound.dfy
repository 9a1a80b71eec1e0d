/**
 Persist-round accounting: which round a step's outbound messages wait for, the
 queue that holds them back, the one sanctioned drain, and the recovery of a
 suspect WAL.
 */
module PersistRound {
  import opened Wrappers
  import opened WalRecords
  import opened WalWriter

  // --- Which messages wait ------------------------------------------------------------------------

  datatype MsgKind =
    | PreVote | PreVoteResp | RequestVote | RequestVoteResp | AppendEntries | AppendEntriesResp
    | InstallSnapshot | InstallSnapshotResp | Heartbeat | TimeoutNow | Quiesce | WakeRequest
    | ClusterProbe | ClusterProbeResp | Removed | RemovedAck

  /** Messages that claim nothing durable; every other kind is held back. */
  predicate ShipsBeforeDurable(kind: MsgKind) {
    kind.AppendEntries? || kind.PreVote? || kind.PreVoteResp? || kind.InstallSnapshot? || kind.TimeoutNow?
    || kind.Quiesce? || kind.WakeRequest? || kind.Heartbeat? || kind.ClusterProbe? || kind.ClusterProbeResp?
    || kind.Removed? || kind.RemovedAck?
  }

  /** The round a step's messages wait for: the next one, the one in flight, or none. */
  function GateRound(drained: nat, durable: nat, dirty: bool): Option<nat> {
    if dirty then Some(drained + 1) else if durable < drained then Some(drained) else None
  }

  /** Nothing is owed, nothing is in flight, and the file is trusted. */
  predicate Settled(drained: nat, durable: nat, suspect: bool, dirty: bool) {
    !dirty && durable >= drained && !suspect
  }

  // --- The counters -----------------------------------------------------------------------------------

  class PersistProgress {
    var drained: nat
    var durable: nat
    var suspect: bool

    constructor ()
      ensures drained == 0 && durable == 0 && !suspect
    {
      drained, durable, suspect := 0, 0, false;
    }

    /** The number of the round that just took records. */
    method BeginDrain() returns (round: nat)
      modifies this`drained
      ensures drained == old(drained) + 1 == round
    {
      drained := drained + 1;
      round := drained;
    }

    method CompleteDrain(round: nat)
      modifies this`durable
      ensures durable == if old(durable) < round then round else old(durable)
    {
      durable := if durable < round then round else durable;
    }

    method CompleteAllDrained()
      modifies this`durable
      ensures durable == if old(durable) < drained then drained else old(durable)
    {
      CompleteDrain(drained);
    }

    method MarkSuspect()
      modifies this`suspect
      ensures suspect
    {
      suspect := true;
    }

    method Gate(dirty: bool) returns (round: Option<nat>)
      ensures round == GateRound(drained, durable, dirty)
      ensures round.None? <==> !dirty && drained <= durable
    {
      if dirty {
        round := Some(drained + 1);
      } else if durable < drained {
        round := Some(drained);
      } else {
        round := None;
      }
    }

    method FullyDurable(dirty: bool) returns (settled: bool)
      ensures settled <==> Settled(drained, durable, suspect, dirty)
      ensures settled ==> GateRound(drained, durable, dirty).None?
    {
      settled := !dirty && durable >= drained && !suspect;
    }
  }

  // --- The queue of held-back messages ----------------------------------------------------------------

  type Batches<M> = seq<(nat, seq<M>)>

  function Flatten<M>(batches: Batches<M>): seq<M> {
    if batches == [] then [] else batches[0].1 + Flatten(batches[1..])
  }

  predicate SortedByRound<M>(batches: Batches<M>) {
    forall i, j :: 0 <= i < j < |batches| ==> batches[i].0 <= batches[j].0
  }

  function Pushed<M>(waiting: Batches<M>, round: nat, outs: seq<M>): Batches<M> {
    if outs == [] then waiting else waiting + [(round, outs)]
  }

  /** How many batches at the head may go. */
  function ReadyCount<M>(waiting: Batches<M>, durable: nat): (n: nat)
    ensures n <= |waiting|
    ensures n < |waiting| ==> waiting[n].0 > durable
    ensures forall i :: 0 <= i < n ==> waiting[i].0 <= durable
  {
    if waiting == [] || waiting[0].0 > durable then 0 else 1 + ReadyCount(waiting[1..], durable)
  }

  lemma {:induction false} FlattenAppend<M>(a: Batches<M>, b: Batches<M>)
    ensures Flatten(a + b) == Flatten(a) + Flatten(b)
    decreases |a|
  {
    if a == [] {
      assert a + b == b;
    } else {
      assert (a + b)[1..] == a[1..] + b;
      FlattenAppend(a[1..], b);
    }
  }

  lemma SplitBatches<M>(waiting: Batches<M>, n: nat)
    requires n <= |waiting|
    ensures Flatten(waiting[..n]) + Flatten(waiting[n..]) == Flatten(waiting)
    ensures SortedByRound(waiting) ==>
              SortedByRound(waiting[n..]) && forall i :: n <= i < |waiting| ==> waiting[n].0 <= waiting[i].0
  {
    FlattenAppend(waiting[..n], waiting[n..]);
    assert waiting == waiting[..n] + waiting[n..];
  }

  lemma FlattenPushed<M>(waiting: Batches<M>, round: nat, outs: seq<M>)
    ensures Flatten(Pushed(waiting, round, outs)) == Flatten(waiting) + outs
  {
    FlattenAppend(waiting, [(round, outs)]);
    assert [(round, outs)][1..] == [];
  }

  /** The position of the first batch that must wait. */
  method FirstWaiting<M>(waiting: Batches<M>, durable: nat) returns (n: nat)
    ensures n == ReadyCount(waiting, durable)
  {
    n := 0;
    while n < |waiting| && waiting[n].0 <= durable
      invariant n <= |waiting| && forall i :: 0 <= i < n ==> waiting[i].0 <= durable
    {
      n := n + 1;
    }
    ghost var count := ReadyCount(waiting, durable);
    assert n <= count && count <= n;
  }

  method Concatenated<M>(batches: Batches<M>) returns (outs: seq<M>)
    ensures outs == Flatten(batches)
  {
    outs := [];
    for i := 0 to |batches|
      invariant outs + Flatten(batches[i..]) == Flatten(batches)
    {
      assert batches[i..][1..] == batches[i + 1..];
      outs := outs + batches[i].1;
    }
  }

  class GatedOuts<M> {
    var waiting: Batches<M>

    constructor ()
      ensures waiting == []
    {
      waiting := [];
    }

    method Push(round: nat, outs: seq<M>)
      requires outs != [] && waiting != [] ==> waiting[|waiting| - 1].0 <= round
      modifies this
      ensures waiting == Pushed(old(waiting), round, outs)
      ensures old(SortedByRound(waiting)) ==> SortedByRound(waiting)
      ensures Flatten(waiting) == old(Flatten(waiting)) + outs
    {
      FlattenPushed(waiting, round, outs);
      if |outs| > 0 {
        waiting := waiting + [(round, outs)];
      }
    }

    method MinRound() returns (round: Option<nat>)
      ensures round == if waiting == [] then None else Some(waiting[0].0)
      ensures SortedByRound(waiting) && round.Some? ==> forall i :: 0 <= i < |waiting| ==> round.value <= waiting[i].0
    {
      round := if |waiting| == 0 then None else Some(waiting[0].0);
    }

    method IsEmpty() returns (empty: bool)
      ensures empty <==> waiting == []
    {
      empty := |waiting| == 0;
    }

    /** Everything whose round is durable, in arrival order; nothing is lost and nothing else goes. */
    method Release(durable: nat) returns (outs: seq<M>)
      modifies this
      ensures outs + Flatten(waiting) == old(Flatten(waiting))
      ensures waiting == old(waiting)[ReadyCount(old(waiting), durable)..]
      ensures old(SortedByRound(waiting)) ==>
                SortedByRound(waiting) && forall i :: 0 <= i < |waiting| ==> waiting[i].0 > durable
    {
      var n := FirstWaiting(waiting, durable);
      SplitBatches(waiting, n);
      outs := Concatenated(waiting[..n]);
      waiting := waiting[n..];
    }

    method Clear()
      modifies this
      ensures waiting == []
    {
      waiting := [];
    }
  }

  // --- The core's durable side ---------------------------------------------------------------------------

  type Hardness = (nat, Option<NodeId>)

  function HardOf<C, S>(st: PersistedState<C, S>): Hardness {
    (st.term, st.votedFor)
  }

  function WithHard<C, S>(st: PersistedState<C, S>, hard: Hardness): PersistedState<C, S> {
    st.(term := hard.0, votedFor := hard.1)
  }

  /** Term and vote only move forward: a later term, or the first vote of this one. */
  predicate HardForward(was: Hardness, now: Hardness) {
    was == now || was.0 < now.0 || (was.0 == now.0 && was.1.None?)
  }

  /** What a step emits: the hard state is only ever recorded by a drain. */
  predicate LogRecords<C, S>(records: seq<WalRecord<C, S>>) {
    RealSnapshots(records) && forall i :: 0 <= i < |records| ==> !records[i].Hard?
  }

  /** Log records leave the hard state alone. */
  lemma {:induction false} ReplayKeepsHard<C, S>(st: PersistedState<C, S>, records: seq<WalRecord<C, S>>,
                                                 hard: Hardness)
    requires LogRecords(records)
    ensures ReplayFrom(WithHard(st, hard), records) == WithHard(ReplayFrom(st, records), hard)
    ensures HardOf(ReplayFrom(st, records)) == HardOf(st)
    decreases |records|
  {
    if records != [] {
      ReplayKeepsHard(Apply(st, records[0]), records[1..], hard);
    }
  }

  /** What a drain takes: the pending records, and the hard state if it moved since it was last emitted. */
  function DrainRecords<C, S>(st: PersistedState<C, S>, pending: seq<WalRecord<C, S>>,
                              emitted: Hardness): seq<WalRecord<C, S>>
  {
    pending + if HardOf(st) != emitted then [Hard(st.term, st.votedFor)] else []
  }

  predicate IsDirty<C, S>(st: PersistedState<C, S>, pending: seq<WalRecord<C, S>>, emitted: Hardness) {
    |pending| > 0 || HardOf(st) != emitted
  }

  /** A drain yields something exactly when the core is dirty, and it brings the drained state up to the core's. */
  lemma DrainIsComplete<C, S>(was: PersistedState<C, S>, st: PersistedState<C, S>, pending: seq<WalRecord<C, S>>,
                              emitted: Hardness)
    requires ReplayFrom(was, pending) == WithHard(st, emitted)
    ensures DrainRecords(st, pending, emitted) == [] <==> !IsDirty(st, pending, emitted)
    ensures ReplayFrom(was, DrainRecords(st, pending, emitted)) == st
  {
    if HardOf(st) != emitted {
      ReplayAppend(was, pending, [Hard(st.term, st.votedFor)]);
      ReplayOne(WithHard(st, emitted), Hard(st.term, st.votedFor));
    } else {
      assert DrainRecords(st, pending, emitted) == pending;
    }
  }

  lemma ReplayOne<C, S>(st: PersistedState<C, S>, record: WalRecord<C, S>)
    ensures ReplayFrom(st, [record]) == Apply(st, record)
  {
    assert [record][1..] == [];
  }

  class Core<C, S> {
    var state: PersistedState<C, S>
    var pending: seq<WalRecord<C, S>>
    var emitted: Hardness
    ghost var drainedState: PersistedState<C, S>

    ghost predicate Valid()
      reads this
    {
      RealBase(state) && ReplayFrom(drainedState, pending) == WithHard(state, emitted)
    }

    constructor (st: PersistedState<C, S>)
      requires RealBase(st)
      ensures Valid() && state == st && pending == [] && emitted == HardOf(st) && drainedState == st
    {
      state, pending, emitted, drainedState := st, [], HardOf(st), st;
    }

    /** A step of the core: it emits log records, and may move the hard state, which is recorded at the next drain. */
    method Step(records: seq<WalRecord<C, S>>, hard: Hardness)
      requires Valid() && LogRecords(records)
      modifies this
      ensures Valid() && drainedState == old(drainedState) && pending == old(pending) + records
              && emitted == old(emitted)
      ensures state == WithHard(ReplayFrom(old(state), records), hard)
    {
      ReplayAppend(drainedState, pending, records);
      ReplayKeepsHard(state, records, emitted);
      RealBaseKept(state, records);
      var next := state;
      for i := 0 to |records|
        invariant ReplayFrom(old(state), records) == ReplayFrom(next, records[i..])
      {
        next := Apply(next, records[i]);
        assert records[i..][1..] == records[i + 1..];
      }
      pending, state := pending + records, WithHard(next, hard);
    }

    method HasUnflushedWal() returns (dirty: bool)
      ensures dirty <==> IsDirty(state, pending, emitted)
    {
      dirty := |pending| > 0 || (state.term, state.votedFor) != emitted;
    }

    method DrainPersist() returns (records: seq<WalRecord<C, S>>)
      requires Valid()
      modifies this
      ensures Valid() && state == old(state) && pending == [] && drainedState == state && emitted == HardOf(state)
      ensures records == DrainRecords(old(state), old(pending), old(emitted))
      ensures records == [] <==> !old(IsDirty(state, pending, emitted))
      ensures ReplayFrom(old(drainedState), records) == state
    {
      DrainIsComplete(drainedState, state, pending, emitted);
      if HardOf(state) != emitted {
        emitted := HardOf(state);
        pending := pending + [Hard(state.term, state.votedFor)];
      }
      records := pending;
      pending := [];
      drainedState := state;
    }

    /** The minimal record set that replays to the current state. */
    method WalImage() returns (image: seq<WalRecord<C, S>>)
      requires Valid()
      ensures image == Image(state) && ReplayFrom(Empty(), image) == state
    {
      ImageIsExact(state);
      image := [];
      if state.snapshot.Some? && state.snapshot.value.lastIndex > 0 {
        var b := state.snapshot.value;
        image := [Snapshot(b.metadata, b.lastIndex, b.lastTerm, state.snapshotConfig, state.snapshotLearners)];
      }
      image := image + [Hard(state.term, state.votedFor)];
      ghost var head := image;
      for i := 0 to |state.log|
        invariant image == head + Appends(state.log[..i])
      {
        image := image + [Append(state.log[i])];
        assert Appends<C, S>(state.log[..i + 1]) == Appends(state.log[..i]) + [Append(state.log[i])];
      }
      assert state.log[..|state.log|] == state.log;
    }
  }

  /** The only sanctioned drain: records taken are numbered, and an empty drain consumes no number. */
  method DrainForRound<C, S>(core: Core<C, S>, progress: PersistProgress)
    returns (records: seq<WalRecord<C, S>>, round: Option<nat>)
    requires core.Valid()
    modifies core, progress`drained
    ensures core.Valid() && core.state == old(core.state) && core.pending == [] && core.drainedState == core.state
    ensures core.emitted == HardOf(core.state)
    ensures ReplayFrom(old(core.drainedState), records) == core.state
    ensures round.Some? <==> old(IsDirty(core.state, core.pending, core.emitted))
    ensures if round.Some? then progress.drained == round.value == old(progress.drained) + 1
            else progress.drained == old(progress.drained) && records == []
  {
    records := core.DrainPersist();
    round := None;
    if |records| > 0 {
      var number := progress.BeginDrain();
      round := Some(number);
    }
  }

  // --- Recovering a suspect WAL -----------------------------------------------------------------------------

  datatype Io = Done | StorageFull | Broken

  datatype Change<C, S> = Change(records: seq<WalRecord<C, S>>, hard: Hardness)

  /**
   What one attempt meets: teardown, the free-space probe, a staged rewrite, the write, and the steps taken
   meanwhile.
   */
  datatype Attempt<C, S> = Attempt(haltedBefore: bool, haltedAfter: bool, probe: Io, staging: bool, write: Io,
                                   meanwhile: seq<Change<C, S>>)

  datatype Outcome = Rewritten | Halted | Failed | StillFull

  /** Steps of the core while the image is being written. */
  method StepAll<C, S>(core: Core<C, S>, changes: seq<Change<C, S>>)
    requires core.Valid() && forall i :: 0 <= i < |changes| ==> LogRecords(changes[i].records)
    modifies core
    ensures core.Valid() && core.drainedState == old(core.drainedState)
  {
    for i := 0 to |changes|
      invariant core.Valid() && core.drainedState == old(core.drainedState)
    {
      core.Step(changes[i].records, changes[i].hard);
    }
  }

  /**
   Only a whole image written to a fresh file moves the watermark; it replays to the
   core's state at capture, and what the core emitted since still waits for the next round.
   */
  method RecoverSuspectWal<C, S>(core: Core<C, S>, progress: PersistProgress, markers: SyncMarkerState,
                                 attempts: seq<Attempt<C, S>>)
    returns (outcome: Outcome, file: Option<seq<WalRecord<C, S>>>)
    requires core.Valid() && progress.durable <= progress.drained
    requires forall i, k :: 0 <= i < |attempts| && 0 <= k < |attempts[i].meanwhile| ==>
               LogRecords(attempts[i].meanwhile[k].records)
    modifies core, progress, markers
    ensures core.Valid() && old(progress.drained) <= progress.drained && progress.durable <= progress.drained
    ensures !outcome.Rewritten? ==> progress.durable == old(progress.durable) && progress.suspect && file.None?
    ensures outcome.Rewritten? ==>
              && file.Some? && ReplayFrom(Empty(), file.value) == core.drainedState
              && progress.durable == progress.drained && !progress.suspect && !markers.synced
              && GateRound(progress.drained, progress.durable, IsDirty(core.state, core.pending, core.emitted))
                 == if IsDirty(core.state, core.pending, core.emitted) then Some(progress.drained + 1) else None
  {
    progress.MarkSuspect();
    file := None;
    for i := 0 to |attempts|
      invariant core.Valid() && progress.suspect && progress.durable == old(progress.durable)
      invariant old(progress.drained) <= progress.drained && progress.durable <= progress.drained && file.None?
    {
      var attempt := attempts[i];
      if attempt.haltedBefore || attempt.haltedAfter {
        return Halted, None;
      }
      if attempt.probe.StorageFull? {
        continue;
      }
      if attempt.probe.Broken? {
        return Failed, None;
      }
      if attempt.staging {
        continue;
      }
      var _, _ := DrainForRound(core, progress);
      var image := core.WalImage();
      StepAll(core, attempt.meanwhile);
      if attempt.write.Done? {
        markers.Invalidate();
        progress.CompleteAllDrained();
        progress.suspect := false;
        return Rewritten, Some(image);
      }
      if attempt.write.Broken? {
        return Failed, None;
      }
    }
    return StillFull, None;
  }

  // --- The consensus loop's persist arm ------------------------------------------------------------------------

  datatype Wake = OwnRoundDone | Durable

  /** One poll of the arm: `own` says whether the loop's own persist future, if any, is ready. */
  function PollPersistArm(durable: nat, suspect: bool, own: Option<bool>, minRound: Option<nat>): Option<Wake> {
    if minRound.Some? && durable >= minRound.value then Some(Durable)
    else if own.Some? then (if own.value then Some(OwnRoundDone) else None)
    else if suspect then Some(Durable) else None
  }
}

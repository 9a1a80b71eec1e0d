/**
 The round protocol of a group that compacts by staged rewrites.  The lock is
 given up while the image is written aside, so rounds land on a live file whose
 snapshot base is older than the core's, and their messages are released on the
 strength of it.
 */
module StagedRounds {
  import opened Wrappers
  import opened WalRecords
  import opened PersistRound
  import opened RoundRuns
  import StagedRewrite

  /**
   The protocol's world, whose disk is what the rounds landed so far add up to, and the files: the live
   one, the records in flight to it, how far a capture under way has moved the base, the staged one, and
   what is known of the live file's lag.
   */
  datatype Group<C, S> = Group(w: World<C, S>, live: seq<WalRecord<C, S>>, flight: seq<WalRecord<C, S>>, moving: nat,
                               staging: Option<StagedRewrite.Staging<C, S>>, skew: StagedRewrite.Skew)

  /** A step of the protocol, where a rewrite is the capture alone, or one of the staged rewrite's own. */
  datatype GroupStep<C, S> = Protocol(step: Step<C, S>) | CatchUp | Swap | Abandon

  function Joined<C, S>(staging: Option<StagedRewrite.Staging<C, S>>, records: seq<WalRecord<C, S>>)
    : Option<StagedRewrite.Staging<C, S>>
  {
    if staging.Some? then Some(staging.value.(tail := staging.value.tail + records)) else None
  }

  predicate HasDisk<C, S>(w: World<C, S>) {
    w.hist.onDisk < |w.hist.states| && w.hist.taken < |w.hist.states|
  }

  function DiskState<C, S>(w: World<C, S>): PersistedState<C, S>
    requires HasDisk(w)
  {
    w.hist.states[w.hist.onDisk]
  }

  /** The lag once the first `m` records in flight have landed. */
  function LagAfter<C, S>(g: Group<C, S>, m: nat): StagedRewrite.Skew
    requires HasDisk(g.w) && m <= |g.flight|
  {
    StagedRewrite.SkewAfterAll(g.skew, DiskState(g.w), g.flight[..m])
  }

  /** The lag once a capture has landed its own round. */
  function CapturedLag<C, S>(g: Group<C, S>): StagedRewrite.Skew
    requires HasDisk(g.w)
  {
    var lag := LagAfter(g, |g.flight|);
    lag.(k := lag.k + g.moving)
  }

  /**
   What a step of the protocol does to the files.  A capture makes the records it drained durable in the
   live file before it gives up the lock; recovery is put off while a rewrite is staging.
   */
  ghost predicate FilesAfter<C, S>(g: Group<C, S>, step: Step<C, S>, g': Group<C, S>) {
    var n := g.w.node;
    match step
    case Install(_, _, _, _) => false
    case StartAppend => g' == g.(w := g'.w, flight := g'.w.node.tail, moving := 0)
    case AppendOk =>
      && HasDisk(g.w)
      && g' == Group(g'.w, g.live + g.flight, [], 0, Joined(g.staging, g.flight), LagAfter(g, |g.flight|))
    case StartRewrite(k, _, _, _) =>
      && g.staging.None?
      && g' == g.(w := g'.w, flight := DrainRecords(n.core, n.pending, n.emitted), moving := k)
    case RewriteOk =>
      && HasDisk(g.w) && n.writer.Rewriting?
      && g' == Group(g'.w, g.live + g.flight, [], 0, Some(StagedRewrite.Staging(n.writer.image, [])), CapturedLag(g))
    case RewriteFails => g.flight != [] && g' == g.(w := g'.w)
    case StartRecovery => g.staging.None? && g' == g.(w := g'.w)
    case RecoveryOk =>
      n.writer.Recovering? && g' == Group(g'.w, n.writer.image, [], 0, g.staging, StagedRewrite.Skew(0, false))
    case _ => g' == g.(w := g'.w)
  }

  ghost predicate GroupNext<C, S>(g: Group<C, S>, step: GroupStep<C, S>, g': Group<C, S>) {
    match step
    case Protocol(s) => Next(g.w, s, g'.w) && FilesAfter(g, s, g')
    case CatchUp =>
      && g.staging.Some? && g.w.node.writer.Idle?
      && g' == g.(staging := Some(StagedRewrite.Drained(g.staging.value)))
    case Swap =>
      && g.staging.Some? && g.w.node.writer.Idle?
      && g' == Group(g.w, StagedRewrite.Drained(g.staging.value).file, [], 0, None, StagedRewrite.Skew(0, false))
    case Abandon => g.staging.Some? && g' == g.(staging := None)
  }

  predicate GroupStarts<C(==), S(==)>(g: Group<C, S>) {
    Starts(g.w) && g == Group(g.w, g.w.node.disk, [], 0, None, StagedRewrite.Skew(0, false))
  }

  ghost predicate GroupStepAt<C, S>(groups: seq<Group<C, S>>, steps: seq<GroupStep<C, S>>, i: nat) {
    i < |steps| && i + 1 < |groups| && GroupNext(groups[i], steps[i], groups[i + 1])
  }

  ghost predicate GroupRun<C, S>(groups: seq<Group<C, S>>, steps: seq<GroupStep<C, S>>) {
    && |groups| == |steps| + 1 && GroupStarts(groups[0])
    && forall i :: 0 <= i < |steps| ==> GroupStepAt(groups, steps, i)
  }

  // --- The invariant -----------------------------------------------------------------------------------

  predicate LiveTracks<C(==), S>(g: Group<C, S>) {
    HasDisk(g.w) && StagedRewrite.Tracks(g.skew, ReplayFrom(Empty(), g.live), DiskState(g.w))
  }

  /** The staged file and its tail are what the rounds landed so far add up to. */
  predicate StagedIsDurable<C(==), S(==)>(g: Group<C, S>) {
    && HasDisk(g.w)
    && (g.staging.Some? ==> ReplayFrom(Empty(), g.staging.value.file + g.staging.value.tail) == DiskState(g.w))
  }

  predicate InFlight<C(==), S(==)>(g: Group<C, S>) {
    var n := g.w.node;
    && HasDisk(g.w)
    && match n.writer
       case Idle => n.suspect || g.flight == []
       case Appending(_) => g.flight == n.tail
       case Rewriting(_, _) =>
         && g.staging.None?
         && StagedRewrite.Tracks(CapturedLag(g), ReplayFrom(ReplayFrom(Empty(), g.live), g.flight),
                                 g.w.hist.states[g.w.hist.taken])
       case Recovering(_) => g.staging.None?
  }

  predicate GroupInv<C(==), S(==)>(g: Group<C, S>) {
    Inv(g.w) && OwesOnly(g.w, {0}) && LiveTracks(g) && StagedIsDurable(g) && InFlight(g)
  }

  /** The files are as before, and so is everything they are measured against. */
  lemma FilesStay<C, S>(g: Group<C, S>, g': Group<C, S>)
    requires LiveTracks(g) && StagedIsDurable(g) && InFlight(g)
    requires g' == g.(w := g'.w) && HasDisk(g'.w) && g'.w.node.tail == g.w.node.tail
    requires g'.w.hist.onDisk == g.w.hist.onDisk && g'.w.hist.taken == g.w.hist.taken
    requires g.w.hist.states <= g'.w.hist.states && g'.w.node.writer == g.w.node.writer
    requires g.w.node.suspect ==> g'.w.node.suspect
    ensures LiveTracks(g') && StagedIsDurable(g') && InFlight(g')
  {
    assert DiskState(g'.w) == DiskState(g.w);
    assert g'.w.hist.states[g'.w.hist.taken] == g.w.hist.states[g.w.hist.taken];
  }

  lemma QueueSteps<C, S>(w: World<C, S>, step: Step<C, S>, w': World<C, S>)
    requires Next(w, step, w') && (step.CoreStep? || step.Release? || step.Settle?)
    ensures w.hist.states <= w'.hist.states && w'.hist.onDisk == w.hist.onDisk && w'.hist.taken == w.hist.taken
    ensures w'.node.writer == w.node.writer && w'.node.tail == w.node.tail && w'.node.suspect == w.node.suspect
  {
  }

  lemma QueueStepKeeps<C, S>(g: Group<C, S>, step: Step<C, S>, g': Group<C, S>)
    requires GroupInv(g) && GroupNext(g, Protocol(step), g') && (step.CoreStep? || step.Release? || step.Settle?)
    ensures LiveTracks(g') && StagedIsDurable(g') && InFlight(g')
  {
    QueueSteps(g.w, step, g'.w);
    FilesStay(g, g');
  }

  lemma FailureKeeps<C, S>(g: Group<C, S>, step: Step<C, S>, g': Group<C, S>)
    requires GroupInv(g) && GroupNext(g, Protocol(step), g')
    requires step.AppendFails? || step.RewriteFails? || step.RecoveryFails?
    ensures LiveTracks(g') && StagedIsDurable(g') && InFlight(g')
  {
    assert g'.w.hist == g.w.hist;
  }

  lemma StartKeeps<C, S>(g: Group<C, S>, step: Step<C, S>, g': Group<C, S>)
    requires GroupInv(g) && GroupNext(g, Protocol(step), g') && (step.StartAppend? || step.StartRecovery?)
    ensures LiveTracks(g') && StagedIsDurable(g') && InFlight(g')
  {
    assert g'.w.hist.states == g.w.hist.states && g'.w.hist.onDisk == g.w.hist.onDisk;
  }

  /** What a capture drains brings the live file up to the core, before the core's base moves. */
  lemma CaptureTracks<C, S>(g: Group<C, S>, flight: seq<WalRecord<C, S>>)
    requires GroupInv(g) && g.w.node.writer.Idle? && !g.w.node.suspect
    requires flight == DrainRecords(g.w.node.core, g.w.node.pending, g.w.node.emitted)
    ensures StagedRewrite.Tracks(StagedRewrite.SkewAfterAll(g.skew, DiskState(g.w), flight),
                                 ReplayFrom(ReplayFrom(Empty(), g.live), flight), g.w.node.core)
  {
    var n, h := g.w.node, g.w.hist;
    DrainIsComplete(h.states[h.taken], n.core, n.pending, n.emitted);
    StagedRewrite.TracksRecords(g.skew, ReplayFrom(Empty(), g.live), DiskState(g.w), flight);
  }

  lemma CaptureKeeps<C, S>(g: Group<C, S>, k: nat, base: SnapshotBase<S>, config: Option<set<NodeId>>,
                           learners: Option<set<NodeId>>, g': Group<C, S>)
    requires GroupInv(g) && GroupNext(g, Protocol(StartRewrite(k, base, config, learners)), g')
    ensures LiveTracks(g') && StagedIsDurable(g') && InFlight(g')
  {
    var core := g.w.node.core;
    var lag := StagedRewrite.SkewAfterAll(g.skew, DiskState(g.w), g'.flight);
    CaptureTracks(g, g'.flight);
    var live := ReplayFrom(ReplayFrom(Empty<C, S>(), g.live), g'.flight);
    StagedRewrite.TracksCompacted(lag, live, core, k, base, config, learners);
    var h := g'.w.hist;
    assert DiskState(g'.w) == DiskState(g.w);
    assert h.states[h.taken] == StagedRewrite.CompactedBy(core, k, base, config, learners);
    assert g'.flight[..|g'.flight|] == g'.flight;
  }

  lemma AppendLands<C, S>(g: Group<C, S>, g': Group<C, S>)
    requires GroupInv(g) && GroupNext(g, Protocol(AppendOk), g')
    ensures LiveTracks(g') && StagedIsDurable(g') && InFlight(g')
  {
    assert g.flight[..|g.flight|] == g.flight;
    ReplayAppend(Empty(), g.live, g.flight);
    StagedRewrite.TracksRecords(g.skew, ReplayFrom(Empty(), g.live), DiskState(g.w), g.flight);
    if g.staging.Some? {
      var s := g.staging.value;
      ReplayAppend(Empty(), s.file + s.tail, g.flight);
      assert s.file + (s.tail + g.flight) == s.file + s.tail + g.flight;
    }
  }

  lemma RewriteLands<C, S>(g: Group<C, S>, g': Group<C, S>)
    requires GroupInv(g) && GroupNext(g, Protocol(RewriteOk), g')
    ensures LiveTracks(g') && StagedIsDurable(g') && InFlight(g')
  {
    ReplayAppend(Empty(), g.live, g.flight);
    var image := g.w.node.writer.image;
    assert image + [] == image;
  }

  lemma RecoveryLands<C, S>(g: Group<C, S>, g': Group<C, S>)
    requires GroupInv(g) && GroupNext(g, Protocol(RecoveryOk), g')
    ensures LiveTracks(g') && StagedIsDurable(g') && InFlight(g')
  {
    StagedRewrite.TracksItself(DiskState(g'.w));
  }

  lemma StagingStepKeeps<C, S>(g: Group<C, S>, step: GroupStep<C, S>, g': Group<C, S>)
    requires GroupInv(g) && GroupNext(g, step, g') && !step.Protocol?
    ensures GroupInv(g')
  {
    if g.staging.Some? {
      var s := g.staging.value;
      assert StagedRewrite.Drained(s).file + [] == s.file + s.tail;
      StagedRewrite.TracksItself(DiskState(g.w));
    }
  }

  lemma FilesKeep<C, S>(g: Group<C, S>, step: Step<C, S>, g': Group<C, S>)
    requires GroupInv(g) && GroupNext(g, Protocol(step), g')
    ensures LiveTracks(g') && StagedIsDurable(g') && InFlight(g')
  {
    match step
    case StartAppend => StartKeeps(g, step, g');
    case StartRecovery => StartKeeps(g, step, g');
    case StartRewrite(k, base, config, learners) => CaptureKeeps(g, k, base, config, learners, g');
    case AppendOk => AppendLands(g, g');
    case RewriteOk => RewriteLands(g, g');
    case RecoveryOk => RecoveryLands(g, g');
    case AppendFails => FailureKeeps(g, step, g');
    case RewriteFails => FailureKeeps(g, step, g');
    case RecoveryFails => FailureKeeps(g, step, g');
    case _ => QueueStepKeeps(g, step, g');
  }

  lemma GroupInvNext<C, S>(g: Group<C, S>, step: GroupStep<C, S>, g': Group<C, S>)
    requires GroupInv(g) && GroupNext(g, step, g')
    ensures GroupInv(g')
  {
    if step.Protocol? {
      InvNext(g.w, step.step, g'.w);
      OwesStep(g.w, step.step, g'.w, {0});
      assert {0} + Made(g.w, step.step) == {0};
      FilesKeep(g, step.step, g');
    } else {
      StagingStepKeeps(g, step, g');
    }
  }

  lemma {:induction false} GroupInvRun<C, S>(groups: seq<Group<C, S>>, steps: seq<GroupStep<C, S>>, i: nat)
    requires GroupRun(groups, steps) && i <= |steps|
    ensures GroupInv(groups[i])
  {
    if i == 0 {
      InvStart(groups[0].w);
      StagedRewrite.TracksItself(groups[0].w.node.core);
    } else {
      GroupInvRun(groups, steps, i - 1);
      assert GroupStepAt(groups, steps, i - 1);
      GroupInvNext(groups[i - 1], steps[i - 1], groups[i]);
    }
  }

  // --- What every run promises --------------------------------------------------------------------------

  /** Whatever rounds land or fail meanwhile, what a swap installs is what the rounds landed so far add up to. */
  lemma SwapInstallsTheDurableState<C, S>(groups: seq<Group<C, S>>, steps: seq<GroupStep<C, S>>, i: nat)
    requires GroupRun(groups, steps) && i < |steps| && steps[i].Swap?
    ensures HasDisk(groups[i + 1].w) && ReplayFrom(Empty(), groups[i + 1].live) == DiskState(groups[i + 1].w)
  {
    GroupInvRun(groups, steps, i);
    assert GroupStepAt(groups, steps, i);
  }

  /** What a crash leaves of the live file, with the first `m` records in flight, and what was promised of it. */
  function Recovered<C, S>(g: Group<C, S>, m: nat): PersistedState<C, S>
    requires m <= |g.flight|
  {
    ReplayFrom(Empty(), g.live + g.flight[..m])
  }

  function Promised<C, S>(g: Group<C, S>, m: nat): PersistedState<C, S>
    requires HasDisk(g.w) && m <= |g.flight|
  {
    ReplayFrom(DiskState(g.w), g.flight[..m])
  }

  function LastIndex<C, S>(st: PersistedState<C, S>): nat {
    Base(st) + |st.log|
  }

  /**
   The live file recovers to the log promised exactly when no truncation was recorded while its base was
   behind; otherwise entries promised are missing from its end.
   */
  lemma LiveFileAgreesIff<C, S>(groups: seq<Group<C, S>>, steps: seq<GroupStep<C, S>>, i: nat, m: nat)
    requires GroupRun(groups, steps) && i <= |steps| && m <= |groups[i].flight|
    ensures HasDisk(groups[i].w)
    ensures StagedRewrite.Agrees(Recovered(groups[i], m), Promised(groups[i], m)) <==> !LagAfter(groups[i], m).cut
    ensures LagAfter(groups[i], m).cut ==> LastIndex(Recovered(groups[i], m)) < LastIndex(Promised(groups[i], m))
  {
    GroupInvRun(groups, steps, i);
    var g := groups[i];
    ReplayAppend(Empty(), g.live, g.flight[..m]);
    StagedRewrite.TracksRecords(g.skew, ReplayFrom(Empty(), g.live), DiskState(g.w), g.flight[..m]);
  }

  /**
   A message that claims durability has left the group: its step is among those landed, and a crash that
   keeps the first `m` records in flight recovers the log at or after it exactly when no truncation was
   recorded while the live file's base was behind the core's.
   */
  lemma SentMessageIsRecoveredIff<C, S>(groups: seq<Group<C, S>>, steps: seq<GroupStep<C, S>>, i: nat, k: nat, m: nat)
    requires GroupRun(groups, steps) && i <= |steps| && m <= |groups[i].flight|
    requires k < |groups[i].w.node.sent| && !ShipsBeforeDurable(groups[i].w.node.sent[k].kind)
    ensures groups[i].w.node.sent[k].ver <= groups[i].w.hist.onDisk && HasDisk(groups[i].w)
    ensures StagedRewrite.Agrees(Recovered(groups[i], m), Promised(groups[i], m)) <==> !LagAfter(groups[i], m).cut
    ensures LagAfter(groups[i], m).cut ==> LastIndex(Recovered(groups[i], m)) < LastIndex(Promised(groups[i], m))
    ensures groups[i].w.node.writer.Recovering? ==>
              ReplayFrom(Empty(), groups[i].w.node.writer.image) == groups[i].w.hist.states[groups[i].w.hist.taken]
  {
    LiveFileAgreesIff(groups, steps, i, m);
    GroupInvRun(groups, steps, i);
    var w := groups[i].w;
    assert OnDisk(w.node.sent[k], w.hist.onDisk) && w.node.sent[k].owed in {0};
  }

  // --- Why recovery waits for a staged rewrite -----------------------------------------------------------

  /** The node once a suspect file has been rewritten, whether or not a rewrite is staging. */
  function Recovering<C, S>(w: World<C, S>): World<C, S> {
    var t := Taken(w);
    t.(node := t.node.(writer := Writer.Recovering(Image(w.node.core))))
  }

  function Rewritten<C, S>(w: World<C, S>): World<C, S> {
    var r := Recovering(w);
    Landed(r, Image(w.node.core), Max(r.node.durable, r.node.drained), false)
  }

  /**
   Were a suspect file recovered while a rewrite is staging, the swap that follows would install what had
   landed before the recovery: right exactly when the failed round and the core since have added nothing.
   */
  lemma UnguardedRecoveryIsUndoneBySwap<C, S>(groups: seq<Group<C, S>>, steps: seq<GroupStep<C, S>>, i: nat)
    requires GroupRun(groups, steps) && i <= |steps| && groups[i].staging.Some?
    requires groups[i].w.node.suspect && groups[i].w.node.writer.Idle?
    ensures var w, file := groups[i].w, StagedRewrite.Drained(groups[i].staging.value).file;
            && Next(w, StartRecovery, Recovering(w)) && Next(Recovering(w), RecoveryOk, Rewritten(w))
            && HasDisk(w) && HasDisk(Rewritten(w))
            && (ReplayFrom(Empty(), file) == DiskState(Rewritten(w)) <==> DiskState(w) == w.node.core)
  {
    GroupInvRun(groups, steps, i);
  }

  // --- Runs ----------------------------------------------------------------------------------------------

  lemma GroupExtended<C, S>(groups: seq<Group<C, S>>, steps: seq<GroupStep<C, S>>, step: GroupStep<C, S>,
                            g: Group<C, S>)
    requires GroupRun(groups, steps) && GroupNext(groups[|steps|], step, g)
    ensures GroupRun(groups + [g], steps + [step])
  {
    var more, all := groups + [g], steps + [step];
    forall i | 0 <= i < |all|
      ensures GroupStepAt(more, all, i)
    {
      if i < |steps| {
        assert GroupStepAt(groups, steps, i);
      }
    }
  }

  /** Nothing is pending, held, in flight or suspect. */
  predicate Rests<C, S>(g: Group<C, S>) {
    var n := g.w.node;
    && n.writer.Idle? && !n.suspect && !n.installOwed && n.pending == [] && n.emitted == HardOf(n.core)
    && n.gated == [] && g.flight == [] && n.durable == n.drained && HasDisk(g.w)
  }

  lemma {:induction false} AllHeld(outs: seq<Out>)
    requires forall i :: 0 <= i < |outs| ==> !ShipsBeforeDurable(outs[i].kind)
    ensures Keep(outs, false) == outs && Keep(outs, true) == []
    decreases |outs|
  {
    if outs != [] {
      AllHeld(outs[..|outs| - 1]);
    }
  }

  /** The core emits records, and the messages made with them are held for the next round. */
  lemma StepIsHeld<C, S>(groups: seq<Group<C, S>>, steps: seq<GroupStep<C, S>>, records: seq<WalRecord<C, S>>,
                         outs: seq<(NodeId, MsgKind)>)
    returns (more: seq<Group<C, S>>, all: seq<GroupStep<C, S>>)
    requires GroupRun(groups, steps) && Rests(groups[|steps|]) && LogRecords(records) && records != []
    requires forall i :: 0 <= i < |outs| ==> !ShipsBeforeDurable(outs[i].1)
    ensures GroupRun(more, all) && |all| == |steps| + 1
    ensures var g, g' := groups[|steps|], more[|all|];
            var n, n' := g.w.node, g'.w.node;
            && g' == g.(w := g'.w) && n'.core == ReplayFrom(n.core, records) && HardOf(n'.core) == n'.emitted
            && n' == n.(core := n'.core, pending := records,
                        gated := Pushed([], n.drained + 1, Kinds(outs, |g.w.hist.states|, 0)))
            && g'.w.hist.states == g.w.hist.states + [n'.core] && g'.w.hist.onDisk == g.w.hist.onDisk
  {
    var g := groups[|steps|];
    var hard := HardOf(g.w.node.core);
    ReplayKeepsHard(g.w.node.core, records, hard);
    var w := Produce(Stepped(g.w, records, hard), outs);
    assert [] + records == records;
    AllHeld(Kinds(outs, |g.w.hist.states|, 0));
    var step: GroupStep<C, S> := Protocol(CoreStep(records, hard, outs));
    GroupExtended(groups, steps, step, g.(w := w));
    more, all := groups + [g.(w := w)], steps + [step];
  }

  /** The next round takes them. */
  lemma AppendIsStarted<C, S>(groups: seq<Group<C, S>>, steps: seq<GroupStep<C, S>>)
    returns (more: seq<Group<C, S>>, all: seq<GroupStep<C, S>>)
    requires GroupRun(groups, steps)
    requires var n := groups[|steps|].w.node;
             n.writer.Idle? && !n.suspect && !n.installOwed && n.pending != [] && n.emitted == HardOf(n.core)
    ensures GroupRun(more, all) && |all| == |steps| + 1
    ensures var g, g' := groups[|steps|], more[|all|];
            var n, n' := g.w.node, g'.w.node;
            && g' == g.(w := g'.w, flight := n.pending, moving := 0) && g'.w.hist.onDisk == g.w.hist.onDisk
            && n' == n.(pending := [], drained := n.drained + 1, writer := Appending(n.drained + 1), tail := n.pending)
            && g'.w.hist.states == g.w.hist.states && g'.w.hist.taken == Last(g.w.hist)
  {
    var g := groups[|steps|];
    var n, t := g.w.node, Taken(g.w);
    assert DrainRecords(n.core, n.pending, n.emitted) == n.pending;
    var w := t.(node := t.node.(writer := Appending(t.node.drained), tail := n.pending));
    var next := g.(w := w, flight := n.pending, moving := 0);
    GroupExtended(groups, steps, Protocol(StartAppend), next);
    more, all := groups + [next], steps + [Protocol(StartAppend)];
  }

  /** It lands. */
  lemma AppendHasLanded<C, S>(groups: seq<Group<C, S>>, steps: seq<GroupStep<C, S>>)
    returns (more: seq<Group<C, S>>, all: seq<GroupStep<C, S>>)
    requires GroupRun(groups, steps) && HasDisk(groups[|steps|].w)
    requires groups[|steps|].w.node.writer == Appending(groups[|steps|].w.node.drained)
    ensures GroupRun(more, all) && |all| == |steps| + 1
    ensures var g, g' := groups[|steps|], more[|all|];
            var n := g.w.node;
            && g'.live == g.live + g.flight && g'.staging == Joined(g.staging, g.flight) && g'.flight == []
            && g'.w == Landed(g.w, n.disk + n.tail, Max(n.durable, n.drained), n.suspect)
  {
    var g := groups[|steps|];
    var n := g.w.node;
    var landed := Group(Landed(g.w, n.disk + n.tail, Max(n.durable, n.drained), n.suspect), g.live + g.flight, [], 0,
                        Joined(g.staging, g.flight), LagAfter(g, |g.flight|));
    GroupExtended(groups, steps, Protocol(AppendOk), landed);
    more, all := groups + [landed], steps + [Protocol(AppendOk)];
  }

  /** What was held for it leaves. */
  lemma AppendIsReleased<C, S>(groups: seq<Group<C, S>>, steps: seq<GroupStep<C, S>>, outs: seq<Out>)
    returns (more: seq<Group<C, S>>, all: seq<GroupStep<C, S>>)
    requires GroupRun(groups, steps) && HasDisk(groups[|steps|].w) && groups[|steps|].flight == []
    requires var n := groups[|steps|].w.node;
             && n.writer.Idle? && n.durable == n.drained && !n.suspect && n.pending == []
             && !n.installOwed && n.emitted == HardOf(n.core) && n.gated == Pushed([], n.drained, outs)
    ensures GroupRun(more, all) && |all| == |steps| + 1
    ensures var g, g' := groups[|steps|], more[|all|];
            && Rests(g') && g' == g.(w := g'.w)
            && g'.w.node.core == g.w.node.core && g'.w.node.sent == g.w.node.sent + outs
  {
    var g := groups[|steps|];
    ReadyAll(g.w.node.gated, g.w.node.drained, outs);
    var out := g.(w := Releasing(g.w, |g.w.node.gated|));
    GroupExtended(groups, steps, Protocol(Release), out);
    more, all := groups + [out], steps + [Protocol(Release)];
  }

  lemma ReadyAll(gated: Batches<Out>, round: nat, outs: seq<Out>)
    requires gated == Pushed([], round, outs)
    ensures ReadyCount(gated, round) == |gated| && Flatten(gated[..|gated|]) == outs && gated[|gated|..] == []
  {
    if outs != [] {
      OneReady(gated, round);
    }
  }

  /** From rest, one round: its records land in the live file and its messages leave. */
  lemma RoundLands<C, S>(groups: seq<Group<C, S>>, steps: seq<GroupStep<C, S>>, records: seq<WalRecord<C, S>>,
                         outs: seq<(NodeId, MsgKind)>)
    returns (more: seq<Group<C, S>>, all: seq<GroupStep<C, S>>)
    requires GroupRun(groups, steps) && Rests(groups[|steps|]) && LogRecords(records) && records != []
    requires forall i :: 0 <= i < |outs| ==> !ShipsBeforeDurable(outs[i].1)
    ensures GroupRun(more, all) && Rests(more[|all|])
    ensures var g, g' := groups[|steps|], more[|all|];
            && g'.live == g.live + records && g'.staging == Joined(g.staging, records)
            && g'.w.node.core == ReplayFrom(g.w.node.core, records)
            && g'.w.node.sent == g.w.node.sent + Kinds(outs, |g.w.hist.states|, 0)
  {
    var held := Kinds(outs, |groups[|steps|].w.hist.states|, 0);
    more, all := StepIsHeld(groups, steps, records, outs);
    more, all := AppendIsStarted(more, all);
    more, all := AppendHasLanded(more, all);
    more, all := AppendIsReleased(more, all, held);
  }

  /** From rest, a capture: the base moves, nothing is drained, and staging begins. */
  lemma CaptureLands<C, S>(groups: seq<Group<C, S>>, steps: seq<GroupStep<C, S>>, k: nat, base: SnapshotBase<S>)
    returns (more: seq<Group<C, S>>, all: seq<GroupStep<C, S>>)
    requires GroupRun(groups, steps) && Rests(groups[|steps|]) && groups[|steps|].staging.None?
    requires var core := groups[|steps|].w.node.core; k <= |core.log| && base.lastIndex == Base(core) + k
    ensures GroupRun(more, all) && Rests(more[|all|])
    ensures var g, g' := groups[|steps|], more[|all|];
            && g'.live == g.live && g'.w.node.core == StagedRewrite.CompactedBy(g.w.node.core, k, base, None, None)
            && g'.staging == Some(StagedRewrite.Staging(Image(g'.w.node.core), [])) && g'.w.node.sent == g.w.node.sent
  {
    var g := groups[|steps|];
    var core := StagedRewrite.CompactedBy(g.w.node.core, k, base, None, None);
    var t := Taken(Compacting(g.w, core));
    var start := t.(node := t.node.(writer := Rewriting(None, Image(core)), installOwed := false));
    var step: GroupStep<C, S> := Protocol(StartRewrite(k, base, None, None));
    var a := g.(w := start, flight := [], moving := k);
    GroupExtended(groups, steps, step, a);
    var b := Group(Landed(start, Image(core), start.node.durable, false), g.live + [], [], 0,
                   Some(StagedRewrite.Staging(Image(core), [])), CapturedLag(a));
    GroupExtended(groups + [a], steps + [step], Protocol(RewriteOk), b);
    more, all := groups + [a] + [b], steps + [step] + [Protocol(RewriteOk)];
    assert g.live + [] == g.live;
  }

  lemma FromNothing() returns (groups: seq<Group<nat, nat>>, steps: seq<GroupStep<nat, nat>>)
    ensures GroupRun(groups, steps) && Rests(groups[|steps|]) && groups[|steps|].staging.None?
    ensures var g := groups[|steps|]; g.live == [] && g.w.node.core == Empty() && g.w.node.sent == []
  {
    var g := Group(Start<nat, nat>(Empty(), []), [], [], 0, None, StagedRewrite.Skew(0, false));
    groups, steps := [g], [];
  }

  const ACKNOWLEDGED: seq<(NodeId, MsgKind)> := [("leader", AppendEntriesResp)]

  /** Entries 1 to 3 land, and a capture moves the base to 2. */
  lemma ThreeLandAndTwoAreCaptured() returns (groups: seq<Group<nat, nat>>, steps: seq<GroupStep<nat, nat>>)
    ensures GroupRun(groups, steps) && Rests(groups[|steps|])
    ensures var g := groups[|steps|];
            && g.live == [] + StagedRewrite.ThreeEntries() && Base(g.w.node.core) == 2 && g.w.node.sent == []
  {
    groups, steps := FromNothing();
    groups, steps := RoundLands(groups, steps, StagedRewrite.ThreeEntries(), []);
    StagedRewrite.ReplayThree(Empty());
    groups, steps := CaptureLands(groups, steps, 2, SnapshotBase(0, 2, 1));
  }

  /**
   A conflicting entry 3 lands on the live file before the swap: its acknowledgement has left, and a crash
   recovers a log that recovery refuses.
   */
  lemma AcknowledgedEntryIsLost()
    returns (groups: seq<Group<nat, nat>>, steps: seq<GroupStep<nat, nat>>, ver: nat)
    ensures GroupRun(groups, steps)
    ensures var g := groups[|steps|];
            && g.w.node.sent == [] + Kinds(ACKNOWLEDGED, ver, 0) && g.flight == []
            && g.w.node.core.log == [StagedRewrite.Entry(3, 2)] && Base(g.w.node.core) == 2
            && Recovered(g, 0).log == [StagedRewrite.Entry(3, 2)] && Base(Recovered(g, 0)) == 0
            && !Contiguous(Recovered(g, 0))
  {
    groups, steps := ThreeLandAndTwoAreCaptured();
    ver := |groups[|steps|].w.hist.states|;
    StagedRewrite.ReplayConflict(groups[|steps|].w.node.core);
    groups, steps := RoundLands(groups, steps, StagedRewrite.Conflict(), ACKNOWLEDGED);
    var g := groups[|steps|];
    LostReplay(g.live);
    assert g.live + g.flight[..0] == g.live;
  }

  lemma LostReplay(live: seq<WalRecord<nat, nat>>)
    requires live == [] + StagedRewrite.ThreeEntries() + StagedRewrite.Conflict()
    ensures ReplayFrom(Empty(), live) == Empty().(log := [StagedRewrite.Entry(3, 2)])
    ensures !Contiguous(ReplayFrom(Empty(), live))
  {
    assert live == StagedRewrite.ThreeEntries() + StagedRewrite.Conflict();
    StagedRewrite.ReplayThree(Empty());
    ReplayAppend(Empty(), StagedRewrite.ThreeEntries(), StagedRewrite.Conflict());
    StagedRewrite.ReplayConflict(ReplayFrom(Empty(), StagedRewrite.ThreeEntries()));
    assert ReplayFrom(Empty(), live).log[0].index == 3;
  }

  /** A round fails while a rewrite is staging: recovering the file now would be undone by the swap. */
  lemma RoundFailsWhileStaging(e: LogEntry<nat>) returns (groups: seq<Group<nat, nat>>, steps: seq<GroupStep<nat, nat>>)
    ensures GroupRun(groups, steps)
    ensures var g := groups[|steps|];
            && g.w.node.suspect && g.w.node.writer.Idle? && g.staging.Some? && HasDisk(g.w)
            && g.w.node.core.log == [e] && DiskState(g.w).log == [] && DiskState(g.w) != g.w.node.core
  {
    groups, steps := FromNothing();
    groups, steps := CaptureLands(groups, steps, 0, SnapshotBase(0, 0, 0));
    var captured := groups[|steps|];
    groups, steps := StepIsHeld(groups, steps, [Append(e)], []);
    ReplayOne(captured.w.node.core, Append(e));
    groups, steps := AppendIsStarted(groups, steps);
    var g := groups[|steps|];
    var failed := g.(w := g.w.(node := g.w.node.(writer := Idle, suspect := true)));
    GroupExtended(groups, steps, Protocol(AppendFails), failed);
    groups, steps := groups + [failed], steps + [Protocol(AppendFails)];
    GroupInvRun(groups, steps, |steps|);
    assert StagedIsDurable(failed);
    ImageIsExact(captured.w.node.core);
  }
}

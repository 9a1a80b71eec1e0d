/**
 The control plane's own guards on the round protocol: when the consensus loop
 starts its persist future, what that future does next, and when compaction may
 rewrite.  Held-back messages can always be brought out, but for one state.
 */
module PersistLoop {
  import opened Wrappers
  import opened WalRecords
  import opened PersistRound
  import opened RoundRuns

  /** The node, and whether the loop has a persist future of its own. */
  datatype Loop<C, S> = Loop(w: World<C, S>, own: bool)

  datatype LoopStep<C, S> = StartOwn | OwnReturns | Protocol(step: Step<C, S>)

  /** The loop's guard: something to write or to recover, and no rewrite owed for an install. */
  predicate StartsOwn<C, S>(l: Loop<C, S>) {
    !l.own && (Dirty(l.w.node) || l.w.node.suspect) && !l.w.node.installOwed
  }

  /** The loop's future appends or recovers, and goes on to recover when its append fails; compaction rewrites. */
  predicate OwnAfter<C, S>(l: Loop<C, S>, step: Step<C, S>, own: bool) {
    match step
    case StartAppend => l.own && own
    case StartRecovery => l.own && own
    case AppendOk => !own
    case RecoveryOk => !own
    case Settle => !l.own && !own
    case _ => own == l.own
  }

  ghost predicate LoopNext<C, S>(l: Loop<C, S>, step: LoopStep<C, S>, l': Loop<C, S>) {
    var n := l.w.node;
    match step
    case StartOwn => StartsOwn(l) && l' == l.(own := true)
    case OwnReturns =>
      l.own && n.writer.Idle? && !n.suspect && (n.installOwed || !Dirty(n)) && l' == l.(own := false)
    case Protocol(s) => Next(l.w, s, l'.w) && OwnAfter(l, s, l'.own)
  }

  ghost predicate LoopStepAt<C, S>(loops: seq<Loop<C, S>>, steps: seq<LoopStep<C, S>>, i: nat) {
    i < |steps| && i + 1 < |loops| && LoopNext(loops[i], steps[i], loops[i + 1])
  }

  ghost predicate LoopPath<C, S>(loops: seq<Loop<C, S>>, steps: seq<LoopStep<C, S>>) {
    |loops| == |steps| + 1 && forall i :: 0 <= i < |steps| ==> LoopStepAt(loops, steps, i)
  }

  ghost predicate LoopRun<C, S>(loops: seq<Loop<C, S>>, steps: seq<LoopStep<C, S>>) {
    && LoopPath(loops, steps)
    && Starts(loops[0].w) && !loops[0].own
  }

  /** Whoever appends or recovers is the loop's own future. */
  predicate LoopInv<C(==), S(==)>(l: Loop<C, S>) {
    Inv(l.w) && (l.w.node.writer.Appending? || l.w.node.writer.Recovering? ==> l.own)
  }

  lemma LoopInvNext<C, S>(l: Loop<C, S>, step: LoopStep<C, S>, l': Loop<C, S>)
    requires LoopInv(l) && LoopNext(l, step, l')
    ensures LoopInv(l')
  {
    if step.Protocol? {
      InvNext(l.w, step.step, l'.w);
      WriterStep(l.w, step.step, l'.w);
    }
  }

  /** Only its own start makes an append or a recovery. */
  lemma WriterStep<C, S>(w: World<C, S>, step: Step<C, S>, w': World<C, S>)
    requires Next(w, step, w')
    ensures w'.node.writer.Appending? ==> w.node.writer.Appending? || step.StartAppend?
    ensures w'.node.writer.Recovering? ==> w.node.writer.Recovering? || step.StartRecovery?
    ensures step.AppendOk? || step.RecoveryOk? ==> w'.node.writer.Idle?
  {
  }

  lemma {:induction false} LoopInvRun<C, S>(loops: seq<Loop<C, S>>, steps: seq<LoopStep<C, S>>, i: nat)
    requires LoopRun(loops, steps) && i <= |steps|
    ensures LoopInv(loops[i])
  {
    if i == 0 {
      InvStart(loops[0].w);
    } else {
      LoopInvRun(loops, steps, i - 1);
      assert LoopStepAt(loops, steps, i - 1);
      LoopInvNext(loops[i - 1], steps[i - 1], loops[i]);
    }
  }

  // --- The one state without a way on --------------------------------------------------------------------

  /**
   The file is suspect and an install owes a rewrite, with no persist future running: the loop waits
   for compaction to settle the install, and compaction for the loop to recover the file.
   */
  predicate Stuck<C, S>(l: Loop<C, S>) {
    l.w.node.suspect && l.w.node.installOwed && !l.own
  }

  /** Neither the loop nor compaction may start anything; what is left is the core and the queue. */
  lemma StuckSteps<C, S>(l: Loop<C, S>, step: LoopStep<C, S>, l': Loop<C, S>)
    requires LoopInv(l) && Stuck(l) && LoopNext(l, step, l')
    ensures step.Protocol? && (step.step.CoreStep? || step.step.Install? || step.step.Release?)
  {
  }

  lemma CoreKeepsWaiting<C, S>(w: World<C, S>, step: Step<C, S>, w': World<C, S>)
    requires Next(w, step, w') && (step.CoreStep? || step.Install?)
    ensures w'.node.suspect == w.node.suspect && w'.node.durable == w.node.durable
    ensures w.node.installOwed ==> w'.node.installOwed
    ensures w.node.gated <= w'.node.gated
  {
  }

  lemma StuckStep<C, S>(l: Loop<C, S>, step: LoopStep<C, S>, l': Loop<C, S>)
    requires LoopInv(l) && Stuck(l) && LoopNext(l, step, l')
    ensures Stuck(l') && l'.w.node.durable == l.w.node.durable
    ensures forall b :: b in l.w.node.gated && b.0 > l.w.node.durable ==> b in l'.w.node.gated
  {
    StuckSteps(l, step, l');
    if step.step.Release? {
      WaitingStay(l.w.node.gated, l.w.node.durable);
    } else {
      CoreKeepsWaiting(l.w, step.step, l'.w);
    }
  }

  lemma WaitingStay<M>(gated: Batches<M>, durable: nat)
    ensures forall b :: b in gated && b.0 > durable ==> b in gated[ReadyCount(gated, durable)..]
  {
    var n := ReadyCount(gated, durable);
    forall b | b in gated && b.0 > durable
      ensures b in gated[n..]
    {
      var i :| 0 <= i < |gated| && gated[i] == b;
      assert gated[n..][i - n] == b;
    }
  }

  /** Once stuck, the node stays so: no round lands, nothing waiting leaves, and the persist arm is always ready. */
  lemma {:induction false} StuckForever<C, S>(loops: seq<Loop<C, S>>, steps: seq<LoopStep<C, S>>, i: nat, j: nat)
    requires LoopRun(loops, steps) && i <= j <= |steps| && Stuck(loops[i])
    ensures Stuck(loops[j]) && loops[j].w.node.durable == loops[i].w.node.durable
    ensures forall b :: b in loops[i].w.node.gated && b.0 > loops[i].w.node.durable ==> b in loops[j].w.node.gated
    ensures var n := loops[j].w.node;
            PollPersistArm(n.durable, n.suspect, None, if n.gated == [] then None else Some(n.gated[0].0))
              == Some(Durable)
    decreases j
  {
    if i < j {
      StuckForever(loops, steps, i, j - 1);
      LoopInvRun(loops, steps, j - 1);
      assert LoopStepAt(loops, steps, j - 1);
      StuckStep(loops[j - 1], steps[j - 1], loops[j]);
    }
  }

  // --- Otherwise a few steps bring every message out ------------------------------------------------------

  lemma Then<C, S>(loops: seq<Loop<C, S>>, steps: seq<LoopStep<C, S>>, step: LoopStep<C, S>, l: Loop<C, S>)
    requires LoopPath(loops, steps) && LoopNext(loops[|steps|], step, l) && LoopInv(loops[|steps|])
    ensures LoopPath(loops + [l], steps + [step]) && LoopInv(l)
  {
    var more, all := loops + [l], steps + [step];
    forall i | 0 <= i < |all|
      ensures LoopStepAt(more, all, i)
    {
      if i < |steps| {
        assert LoopStepAt(loops, steps, i);
      }
    }
    LoopInvNext(loops[|steps|], step, l);
  }

  predicate Quiet<C, S>(n: Node<C, S>) {
    n.writer.Idle? && !n.suspect
  }

  /** The write under way succeeds. */
  lemma WriteLands<C, S>(l: Loop<C, S>) returns (step: LoopStep<C, S>, l': Loop<C, S>)
    requires LoopInv(l) && !l.w.node.writer.Idle?
    ensures LoopNext(l, step, l') && Quiet(l'.w.node)
    ensures l'.w.node.pending == l.w.node.pending && l'.w.node.emitted == l.w.node.emitted
            && l'.w.node.core == l.w.node.core
  {
    var w, n := l.w, l.w.node;
    match n.writer {
      case Appending(round) =>
        step := Protocol(AppendOk);
        l' := Loop(Landed(w, n.disk + n.tail, Max(n.durable, round), n.suspect), false);
      case Rewriting(claimed, image) =>
        var durable := if claimed.Some? then Max(n.durable, claimed.value) else n.durable;
        step := Protocol(RewriteOk);
        l' := Loop(Landed(w, image, durable, n.suspect), l.own);
      case Recovering(image) =>
        step := Protocol(RecoveryOk);
        l' := Loop(Landed(w, image, Max(n.durable, n.drained), false), false);
    }
  }

  /** A write is under way that has taken everything the core had. */
  predicate AllTaken<C, S>(n: Node<C, S>) {
    !n.writer.Idle? && !Dirty(n)
  }

  lemma RewriteStarts<C, S>(l: Loop<C, S>, metadata: S) returns (step: LoopStep<C, S>, l': Loop<C, S>)
    requires Quiet(l.w.node)
    ensures LoopNext(l, step, l') && AllTaken(l'.w.node)
  {
    var n := l.w.node;
    var base := SnapshotBase(metadata, Base(n.core), 0);
    var t := Taken(Compacting(l.w, n.core));
    step := Protocol(StartRewrite(0, base, None, None));
    l' := Loop(t.(node := t.node.(writer := Rewriting(if Dirty(n) then Some(t.node.drained) else None, Image(n.core)),
                                  installOwed := false)), l.own);
  }

  lemma AppendStarts<C, S>(l: Loop<C, S>) returns (step: LoopStep<C, S>, l': Loop<C, S>)
    requires Quiet(l.w.node) && l.own && Dirty(l.w.node) && !l.w.node.installOwed
    ensures LoopNext(l, step, l') && AllTaken(l'.w.node)
  {
    var n, t := l.w.node, Taken(l.w);
    step := Protocol(StartAppend);
    l' := Loop(t.(node := t.node.(writer := Appending(t.node.drained),
                                  tail := DrainRecords(n.core, n.pending, n.emitted))),
               true);
  }

  lemma RecoveryStarts<C, S>(l: Loop<C, S>) returns (step: LoopStep<C, S>, l': Loop<C, S>)
    requires l.w.node.writer.Idle? && l.w.node.suspect && l.own
    ensures LoopNext(l, step, l') && AllTaken(l'.w.node)
  {
    var t := Taken(l.w);
    step := Protocol(StartRecovery);
    l' := Loop(t.(node := t.node.(writer := Recovering(Image(l.w.node.core)))), true);
  }

  /** With nothing pending, in flight or suspect, a release empties the queue. */
  lemma ReleaseEmpties<C, S>(l: Loop<C, S>) returns (l': Loop<C, S>)
    requires LoopInv(l) && Quiet(l.w.node) && !Dirty(l.w.node)
    ensures LoopNext(l, Protocol(Release), l') && l'.w.node.gated == []
  {
    var n := l.w.node;
    var ready := ReadyCount(n.gated, n.durable);
    forall b | 0 <= b < |n.gated|
      ensures n.gated[b].0 <= n.durable
    {
      assert BatchCovered(l.w, n.gated[b]);
    }
    l' := Loop(Releasing(l.w, ready), l.own);
  }

  /** A write that takes everything is started, lands, and is followed by a release. */
  lemma LandAndRelease<C, S>(loops: seq<Loop<C, S>>, steps: seq<LoopStep<C, S>>, step: LoopStep<C, S>, l: Loop<C, S>)
    returns (more: seq<Loop<C, S>>, all: seq<LoopStep<C, S>>)
    requires LoopPath(loops, steps) && LoopInv(loops[|steps|])
    requires LoopNext(loops[|steps|], step, l) && AllTaken(l.w.node)
    ensures LoopPath(more, all) && more[0] == loops[0] && |all| == |steps| + 3 && more[|all|].w.node.gated == []
  {
    Then(loops, steps, step, l);
    more, all := loops + [l], steps + [step];
    var lands, landed := WriteLands(l);
    Then(more, all, lands, landed);
    more, all := more + [landed], all + [lands];
    var out := ReleaseEmpties(landed);
    Then(more, all, Protocol(Release), out);
    more, all := more + [out], all + [Protocol(Release)];
  }

  /** The loop starts its future, unless it has one. */
  lemma OwnStarts<C, S>(loops: seq<Loop<C, S>>, steps: seq<LoopStep<C, S>>)
    returns (more: seq<Loop<C, S>>, all: seq<LoopStep<C, S>>)
    requires LoopPath(loops, steps) && LoopInv(loops[|steps|])
    requires loops[|steps|].own || StartsOwn(loops[|steps|])
    ensures LoopPath(more, all) && more[0] == loops[0] && |steps| <= |all| <= |steps| + 1
    ensures LoopInv(more[|all|]) && more[|all|] == loops[|steps|].(own := true)
  {
    more, all := loops, steps;
    var l := loops[|steps|];
    if !l.own {
      Then(loops, steps, StartOwn, l.(own := true));
      more, all := loops + [l.(own := true)], steps + [StartOwn];
    }
  }

  lemma FromIdle<C, S>(loops: seq<Loop<C, S>>, steps: seq<LoopStep<C, S>>, metadata: S)
    returns (more: seq<Loop<C, S>>, all: seq<LoopStep<C, S>>)
    requires LoopPath(loops, steps) && LoopInv(loops[|steps|]) && !Stuck(loops[|steps|])
    requires loops[|steps|].w.node.writer.Idle?
    ensures LoopPath(more, all) && more[0] == loops[0] && |all| <= |steps| + 4 && more[|all|].w.node.gated == []
  {
    var l := loops[|steps|];
    var n := l.w.node;
    if n.suspect {
      var path, taken := OwnStarts(loops, steps);
      var step, next := RecoveryStarts(path[|taken|]);
      more, all := LandAndRelease(path, taken, step, next);
    } else if n.installOwed {
      var step, next := RewriteStarts(l, metadata);
      more, all := LandAndRelease(loops, steps, step, next);
    } else if Dirty(n) {
      var path, taken := OwnStarts(loops, steps);
      var step, next := AppendStarts(path[|taken|]);
      more, all := LandAndRelease(path, taken, step, next);
    } else {
      var out := ReleaseEmpties(l);
      Then(loops, steps, Protocol(Release), out);
      more, all := loops + [out], steps + [Protocol(Release)];
    }
  }

  /**
   From every state of every run that is not stuck, the loop and compaction, by their own guards and with
   a disk that works, bring out every held message within five steps.
   */
  lemma Progress<C, S>(loops: seq<Loop<C, S>>, steps: seq<LoopStep<C, S>>, i: nat, metadata: S)
    returns (path: seq<Loop<C, S>>, taken: seq<LoopStep<C, S>>)
    requires LoopRun(loops, steps) && i <= |steps| && !Stuck(loops[i])
    ensures LoopPath(path, taken) && path[0] == loops[i] && |taken| <= 5 && path[|taken|].w.node.gated == []
  {
    LoopInvRun(loops, steps, i);
    var l := loops[i];
    if l.w.node.writer.Idle? {
      path, taken := FromIdle([l], [], metadata);
    } else {
      var step, next := WriteLands(l);
      Then([l], [], step, next);
      path, taken := FromIdle([l] + [next], [] + [step], metadata);
    }
  }

  /** With messages held and nobody writing, the arm is ready, the loop starts a round, or compaction owes one. */
  lemma TheArmDoesNotSleepOnWork<C, S>(loops: seq<Loop<C, S>>, steps: seq<LoopStep<C, S>>, i: nat)
    requires LoopRun(loops, steps) && i <= |steps| && !loops[i].own
    requires loops[i].w.node.gated != [] && loops[i].w.node.writer.Idle?
    ensures var n := loops[i].w.node;
            || PollPersistArm(n.durable, n.suspect, None, Some(n.gated[0].0)) == Some(Durable)
            || StartsOwn(loops[i])
            || (n.installOwed && !n.suspect)
  {
    LoopInvRun(loops, steps, i);
    assert BatchCovered(loops[i].w, loops[i].w.node.gated[0]);
  }

  // --- A run into it -----------------------------------------------------------------------------------------

  lemma Unstarted<C, S>()
    ensures LoopRun([Loop(Start<C, S>(Empty(), []), false)], []) && LoopInv(Loop(Start<C, S>(Empty(), []), false))
  {
  }

  const ACK: seq<(NodeId, MsgKind)> := [("leader", AppendEntriesResp)]

  lemma Acknowledged<C, S>(w: World<C, S>, ver: nat)
    requires w.node.gated == [] && Dirty(w.node) && w.node.drained == 0 && w.hist.need == ver
    ensures Produce(w, ACK).node.gated == [(1, [Out("leader", AppendEntriesResp, ver, 0)])]
    ensures Produce(w, ACK).node.durable == w.node.durable && Produce(w, ACK).node.suspect == w.node.suspect
    ensures Produce(w, ACK).node.installOwed == w.node.installOwed
  {
    assert Kinds(ACK, ver, 0) == [Out("leader", AppendEntriesResp, ver, 0)];
    OneHeld(Out("leader", AppendEntriesResp, ver, 0));
  }

  /** An install owes a rewrite. */
  lemma RewriteIsOwed(a: SnapshotBase<nat>) returns (loops: seq<Loop<nat, nat>>, steps: seq<LoopStep<nat, nat>>)
    requires a.lastIndex > 0
    ensures LoopRun(loops, steps) && |steps| == 1 && LoopInv(loops[1]) && !loops[1].own
    ensures var n, h := loops[1].w.node, loops[1].w.hist;
            && Quiet(n) && !Dirty(n) && n.gated == [] && n.drained == 0 && n.durable == 0 && |h.states| == 2
            && n.core.snapshot == Some(a)
  {
    Unstarted<nat, nat>();
    var start := Loop(Start<nat, nat>(Empty(), []), false);
    var l := Loop(Produce(Installed(start.w, a, None, None), []), false);
    var step: LoopStep<nat, nat> := Protocol(Install(a, None, None, []));
    Then([start], [], step, l);
    loops, steps := [start] + [l], [] + [step];
  }

  /** That rewrite is under way. */
  lemma RewriteUnderWay(a: SnapshotBase<nat>) returns (loops: seq<Loop<nat, nat>>, steps: seq<LoopStep<nat, nat>>)
    requires a.lastIndex > 0
    ensures LoopRun(loops, steps) && |steps| == 2 && LoopInv(loops[2]) && !loops[2].own
    ensures var n, h := loops[2].w.node, loops[2].w.hist;
            && n.writer.Rewriting? && !Dirty(n) && n.gated == [] && n.drained == 0 && n.durable == 0 && |h.states| == 3
  {
    loops, steps := RewriteIsOwed(a);
    var w := loops[1].w;
    var t := Taken(Compacting(w, w.node.core));
    var l := Loop(t.(node := t.node.(writer := Rewriting(None, Image(w.node.core)), installOwed := false)), false);
    var step: LoopStep<nat, nat> := Protocol(StartRewrite(0, a, None, None));
    Then(loops, steps, step, l);
    loops, steps := loops + [l], steps + [step];
  }

  /** A second install arrives meanwhile, and the rewrite runs out of space. */
  lemma RewriteFailsUnderInstall(a: SnapshotBase<nat>, b: SnapshotBase<nat>)
    returns (loops: seq<Loop<nat, nat>>, steps: seq<LoopStep<nat, nat>>)
    requires a.lastIndex > 0 && b.lastIndex > 0
    ensures LoopRun(loops, steps) && |steps| == 4 && LoopInv(loops[4]) && Stuck(loops[4])
    ensures var n, h := loops[4].w.node, loops[4].w.hist;
            n.gated == [] && n.drained == 0 && n.durable == 0 && |h.states| == 4
  {
    loops, steps := RewriteUnderWay(a);
    var w3 := Produce(Installed(loops[2].w, b, None, None), []);
    var s3: LoopStep<nat, nat> := Protocol(Install(b, None, None, []));
    Then(loops, steps, s3, Loop(w3, false));
    loops, steps := loops + [Loop(w3, false)], steps + [s3];
    var w4 := w3.(node := w3.node.(writer := Idle, suspect := true));
    Then(loops, steps, Protocol(RewriteFails), Loop(w4, false));
    loops, steps := loops + [Loop(w4, false)], steps + [Protocol(RewriteFails)];
  }

  /** An acknowledgement made from then on waits for a round that never starts. */
  lemma InstallDuringFailedRewriteIsStuck(a: SnapshotBase<nat>, b: SnapshotBase<nat>, e: LogEntry<nat>)
    returns (loops: seq<Loop<nat, nat>>, steps: seq<LoopStep<nat, nat>>)
    requires a.lastIndex > 0 && b.lastIndex > 0
    ensures LoopRun(loops, steps) && |steps| == 5 && Stuck(loops[5]) && loops[5].w.node.durable == 0
    ensures loops[5].w.node.gated == [(1, [Out("leader", AppendEntriesResp, 4, 0)])]
  {
    loops, steps := RewriteFailsUnderInstall(a, b);
    var w := loops[4].w;
    var next := Stepped(w, [Append(e)], HardOf(w.node.core));
    Acknowledged(next, 4);
    var step: LoopStep<nat, nat> := Protocol(CoreStep([Append(e)], HardOf(w.node.core), ACK));
    Then(loops, steps, step, Loop(Produce(next, ACK), false));
    loops, steps := loops + [Loop(Produce(next, ACK), false)], steps + [step];
  }
}

/**
 Runs of the persist-round protocol: core steps, drains by the consensus loop,
 by compaction and by suspect recovery, their I/O succeeding or failing, and
 the release of held-back messages, in any interleaving.
 */
module RoundRuns {
  import opened Wrappers
  import opened WalRecords
  import opened PersistRound
  import StagedRewrite

  /**
   A message: `ver` is the core version it was produced at, and `owed` the version of an installed
   snapshot it depends on that no round it waits for covers, 0 if there is none.
   */
  datatype Out = Out(to: NodeId, kind: MsgKind, ver: nat, owed: nat)

  /** Who holds the WAL lock, and what it is writing. */
  datatype Writer<C, S> =
    | Idle
    | Appending(round: nat)
    | Rewriting(claimed: Option<nat>, image: seq<WalRecord<C, S>>)
    | Recovering(image: seq<WalRecord<C, S>>)

  /** The node: the core, the round counters, the queue, and the disk. */
  datatype Node<C, S> = Node(
    core: PersistedState<C, S>, pending: seq<WalRecord<C, S>>, emitted: Hardness, installOwed: bool,
    drained: nat, durable: nat, suspect: bool,
    gated: Batches<Out>, sent: seq<Out>,
    writer: Writer<C, S>, disk: seq<WalRecord<C, S>>, tail: seq<WalRecord<C, S>>)

  /**
   The history of a run: every state the core has been in, the version that the next message
   depends on, the version of the last unrecorded install, the versions on disk, drained last,
   and drained by each round; and all messages held back and released so far.
   */
  datatype History<C, S> = History(
    states: seq<PersistedState<C, S>>, need: nat, install: nat, onDisk: nat, taken: nat, rounds: seq<nat>,
    held: seq<Out>, released: seq<Out>)

  datatype World<C, S> = World(node: Node<C, S>, hist: History<C, S>)

  datatype Step<C, S> =
    | CoreStep(records: seq<WalRecord<C, S>>, hard: Hardness, outs: seq<(NodeId, MsgKind)>)
    | Install(base: SnapshotBase<S>, config: Option<set<NodeId>>, learners: Option<set<NodeId>>,
              outs: seq<(NodeId, MsgKind)>)
    | StartAppend | AppendOk | AppendFails
    | StartRewrite(k: nat, base: SnapshotBase<S>, config: Option<set<NodeId>>, learners: Option<set<NodeId>>)
    | RewriteOk | RewriteFails
    | StartRecovery | RecoveryOk | RecoveryFails
    | Release | Settle

  // --- The parts of a step ----------------------------------------------------------------------------

  predicate Dirty<C, S>(n: Node<C, S>) {
    IsDirty(n.core, n.pending, n.emitted)
  }

  function Last<C, S>(h: History<C, S>): nat {
    if h.states == [] then 0 else |h.states| - 1
  }

  function Kinds(outs: seq<(NodeId, MsgKind)>, ver: nat, owed: nat): seq<Out> {
    seq(|outs|, i requires 0 <= i < |outs| => Out(outs[i].0, outs[i].1, ver, owed))
  }

  function Keep(outs: seq<Out>, early: bool): seq<Out> {
    if outs == [] then []
    else
      var front := Keep(outs[..|outs| - 1], early);
      var last := outs[|outs| - 1];
      if ShipsBeforeDurable(last.kind) == early then front + [last] else front
  }

  /** Ship what may go now and hold the rest for the round the gate names. */
  function Emitted<C, S>(w: World<C, S>, outs: seq<Out>): World<C, S> {
    match GateRound(w.node.drained, w.node.durable, Dirty(w.node))
    case None => w.(node := w.node.(sent := w.node.sent + outs))
    case Some(round) =>
      var held := Keep(outs, false);
      World(w.node.(sent := w.node.sent + Keep(outs, true), gated := Pushed(w.node.gated, round, held)),
            w.hist.(held := w.hist.held + held))
  }

  /** The core is in a new state, which the next messages depend on. */
  function Advanced<C, S>(w: World<C, S>, core: PersistedState<C, S>, records: seq<WalRecord<C, S>>): World<C, S> {
    World(w.node.(core := core, pending := w.node.pending + records),
          w.hist.(states := w.hist.states + [core], need := |w.hist.states|))
  }

  /** The version the round covers. */
  function Covers<C, S>(h: History<C, S>, round: nat): nat {
    if 0 < round <= |h.rounds| then h.rounds[round - 1] else 0
  }

  /** The next round covers everything pending, and the last one what it took; an install may be past both. */
  function Owed<C, S>(w: World<C, S>): nat {
    if Dirty(w.node) || w.hist.need <= Covers(w.hist, w.node.drained) then 0 else w.hist.install
  }

  function Produce<C, S>(w: World<C, S>, outs: seq<(NodeId, MsgKind)>): World<C, S> {
    Emitted(w, Kinds(outs, w.hist.need, Owed(w)))
  }

  /** The core emits `records` and moves its hard state; a step that does neither changes nothing. */
  function Stepped<C, S>(w: World<C, S>, records: seq<WalRecord<C, S>>, hard: Hardness): World<C, S> {
    if |records| == 0 && hard == HardOf(w.node.core) then w
    else Advanced(w, WithHard(ReplayFrom(w.node.core, records), hard), records)
  }

  /** An installed snapshot resets the log to its base; the control plane records this only by a later rewrite. */
  function Installed<C, S>(w: World<C, S>, base: SnapshotBase<S>, config: Option<set<NodeId>>,
                           learners: Option<set<NodeId>>): World<C, S>
  {
    var core := w.node.core.(log := [], snapshot := Some(base), snapshotConfig := config, snapshotLearners := learners);
    var next := Advanced(w, core, []);
    World(next.node.(installOwed := true), next.hist.(install := |w.hist.states|))
  }

  /** Take everything pending, numbering a round if there was anything. */
  function Taken<C, S>(w: World<C, S>): World<C, S> {
    var n := w.node;
    World(n.(pending := [], emitted := HardOf(n.core), drained := if Dirty(n) then n.drained + 1 else n.drained),
          w.hist.(taken := Last(w.hist), rounds := if Dirty(n) then w.hist.rounds + [Last(w.hist)] else w.hist.rounds))
  }

  /** The core once a compaction has moved its base over `k` entries; the messages' version is unchanged. */
  function Compacting<C, S>(w: World<C, S>, core: PersistedState<C, S>): World<C, S> {
    World(w.node.(core := core), w.hist.(states := w.hist.states + [core]))
  }

  /** The file on disk is now this one, at the version drained last. */
  function Landed<C, S>(w: World<C, S>, disk: seq<WalRecord<C, S>>, durable: nat, suspect: bool): World<C, S> {
    World(w.node.(disk := disk, tail := [], durable := durable, suspect := suspect, writer := Idle),
          w.hist.(onDisk := w.hist.taken))
  }

  function Releasing<C, S>(w: World<C, S>, n: nat): World<C, S>
    requires n <= |w.node.gated|
  {
    var out := Flatten(w.node.gated[..n]);
    World(w.node.(sent := w.node.sent + out, gated := w.node.gated[n..]), w.hist.(released := w.hist.released + out))
  }

  ghost predicate Next<C, S>(w: World<C, S>, step: Step<C, S>, w': World<C, S>) {
    var n := w.node;
    match step
    case CoreStep(records, hard, outs) =>
      LogRecords(records) && HardForward(HardOf(n.core), hard) && w' == Produce(Stepped(w, records, hard), outs)
    case Install(base, config, learners, outs) =>
      base.lastIndex > 0 && w' == Produce(Installed(w, base, config, learners), outs)
    case StartAppend =>
      && n.writer.Idle? && !n.suspect && !n.installOwed && Dirty(n)
      && var records := DrainRecords(n.core, n.pending, n.emitted);
         var t := Taken(w);
         w' == t.(node := t.node.(writer := Appending(t.node.drained), tail := records))
    case AppendOk =>
      n.writer.Appending? && w' == Landed(w, n.disk + n.tail, Max(n.durable, n.writer.round), n.suspect)
    case AppendFails => n.writer.Appending? && w' == w.(node := n.(writer := Idle, suspect := true))
    case StartRewrite(k, base, config, learners) =>
      && n.writer.Idle? && !n.suspect && k <= |n.core.log| && base.lastIndex == Base(n.core) + k
      && var core := StagedRewrite.CompactedBy(n.core, k, base, config, learners);
         var t := Taken(Compacting(w, core));
         w' == t.(node := t.node.(writer := Rewriting(if Dirty(n) then Some(t.node.drained) else None, Image(core)),
                                  installOwed := false))
    case RewriteOk =>
      n.writer.Rewriting?
      && w' == Landed(w, n.writer.image,
                      if n.writer.claimed.Some? then Max(n.durable, n.writer.claimed.value) else n.durable, n.suspect)
    case RewriteFails => n.writer.Rewriting? && w' == w.(node := n.(writer := Idle, suspect := true))
    case StartRecovery =>
      && n.writer.Idle? && n.suspect
      && var t := Taken(w);
         w' == t.(node := t.node.(writer := Recovering(Image(n.core))))
    case RecoveryOk => n.writer.Recovering? && w' == Landed(w, n.writer.image, Max(n.durable, n.drained), false)
    case RecoveryFails => n.writer.Recovering? && w' == w.(node := n.(writer := Idle))
    case Release => w' == Releasing(w, ReadyCount(n.gated, n.durable))
    case Settle => Settled(n.drained, n.durable, n.suspect, Dirty(n)) && w' == Releasing(w, |n.gated|)
  }

  /** A node that has recovered `core` from `disk`. */
  function Start<C, S>(core: PersistedState<C, S>, disk: seq<WalRecord<C, S>>): World<C, S> {
    World(Node(core, [], HardOf(core), false, 0, 0, false, [], [], Idle, disk, []),
          History([core], 0, 0, 0, 0, [], [], []))
  }

  predicate Starts<C(==), S(==)>(w: World<C, S>) {
    && RealBase(w.node.core) && ReplayFrom(Empty(), w.node.disk) == w.node.core
    && w == Start(w.node.core, w.node.disk)
  }

  ghost predicate StepAt<C, S>(worlds: seq<World<C, S>>, steps: seq<Step<C, S>>, i: nat) {
    i < |steps| && i + 1 < |worlds| && Next(worlds[i], steps[i], worlds[i + 1])
  }

  ghost predicate Run<C, S>(worlds: seq<World<C, S>>, steps: seq<Step<C, S>>) {
    && |worlds| == |steps| + 1
    && Starts(worlds[0])
    && forall i :: 0 <= i < |steps| ==> StepAt(worlds, steps, i)
  }

  // --- The invariant -----------------------------------------------------------------------------------

  /** Rounds are serialised: at most the last one is not yet durable, unless the file is suspect. */
  predicate Counted<C, S>(w: World<C, S>) {
    var n := w.node;
    && |w.hist.rounds| == n.drained && n.durable <= n.drained
    && (match n.writer
        case Idle => n.suspect || n.durable == n.drained
        case Appending(round) => !n.suspect && round == n.drained && n.durable + 1 == n.drained
        case Rewriting(claimed, _) =>
          && !n.suspect
          && if claimed.Some? then claimed.value == n.drained == n.durable + 1 else n.durable == n.drained
        case Recovering(_) => n.suspect)
  }

  predicate Ordered<C, S>(h: History<C, S>) {
    && 0 < |h.states| && h.onDisk <= h.taken <= Last(h) && h.install <= h.need <= Last(h)
    && (forall i :: 0 <= i < |h.rounds| ==> h.rounds[i] <= h.taken)
    && (forall i, j :: 0 <= i < j < |h.rounds| ==> h.rounds[i] <= h.rounds[j])
  }

  /** The file replays to the version on disk, and what is being written brings it to the version taken. */
  predicate Stored<C(==), S(==)>(w: World<C, S>) {
    var n, h := w.node, w.hist;
    && Ordered(h) && RealBase(n.core) && n.core == h.states[Last(h)]
    && ReplayFrom(Empty(), n.disk) == h.states[h.onDisk]
    && (!n.suspect && n.writer.Idle? ==> h.onDisk == h.taken)
    && (!n.suspect && !n.writer.Appending? ==> n.tail == [])
    && (match n.writer
        case Idle => true
        case Appending(_) => ReplayFrom(h.states[h.onDisk], n.tail) == h.states[h.taken]
        case Rewriting(_, image) => ReplayFrom(Empty(), image) == h.states[h.taken]
        case Recovering(image) => ReplayFrom(Empty(), image) == h.states[h.taken])
  }

  /** Unless an unrecorded install intervenes, the pending records bring the version taken up to the core. */
  predicate Recorded<C(==), S(==)>(w: World<C, S>) {
    var n, h := w.node, w.hist;
    && Ordered(h) && HardForward(n.emitted, HardOf(n.core))
    && (h.install <= h.taken ==> ReplayFrom(h.states[h.taken], n.pending) == WithHard(n.core, n.emitted))
    && (!n.installOwed ==> h.install <= h.taken)
    && (!Dirty(n) ==> h.need <= Covers(h, n.drained) || h.need == h.install)
  }

  /** What a message owes is the install it was made at; one that owes nothing is covered by its round. */
  predicate OutCovered<C, S>(w: World<C, S>, round: nat, out: Out) {
    && out.ver <= Last(w.hist) && (out.owed == 0 || out.owed == out.ver)
    && (out.owed == 0 && round <= w.node.drained ==> out.ver <= Covers(w.hist, round))
  }

  /** Every batch waits on a round that was, or will be, taken; its messages are covered by that round. */
  predicate BatchCovered<C, S>(w: World<C, S>, batch: (nat, seq<Out>)) {
    && (batch.0 <= w.node.drained || (batch.0 == w.node.drained + 1 && Dirty(w.node)))
    && forall k :: 0 <= k < |batch.1| ==> OutCovered(w, batch.0, batch.1[k])
  }

  predicate Held<C, S>(w: World<C, S>) {
    && SortedByRound(w.node.gated)
    && (forall i :: 0 <= i < |w.node.gated| ==> BatchCovered(w, w.node.gated[i]))
  }

  predicate OnDisk(out: Out, onDisk: nat) {
    (out.owed == 0 || out.owed == out.ver) && (out.owed == 0 ==> out.ver <= onDisk)
  }

  /** What has left and claims durability is on disk, but for an install it owes. */
  predicate Safe(onDisk: nat, sent: seq<Out>) {
    forall k :: 0 <= k < |sent| && !ShipsBeforeDurable(sent[k].kind) ==> OnDisk(sent[k], onDisk)
  }

  predicate RoundsOnDisk<C, S>(w: World<C, S>) {
    Covers(w.hist, w.node.durable) <= w.hist.onDisk
  }

  predicate Sound<C(==), S(==)>(w: World<C, S>) {
    Counted(w) && Stored(w) && Recorded(w) && RoundsOnDisk(w)
  }

  predicate Conserved<C, S>(w: World<C, S>) {
    w.hist.released + Flatten(w.node.gated) == w.hist.held
  }

  predicate Inv<C(==), S(==)>(w: World<C, S>) {
    Sound(w) && Held(w) && Safe(w.hist.onDisk, w.node.sent) && Conserved(w)
  }

  // --- Every step keeps it ---------------------------------------------------------------------------------

  lemma CoversAscends<C, S>(h: History<C, S>, a: nat, b: nat)
    requires Ordered(h) && a <= b <= |h.rounds|
    ensures Covers(h, a) <= Covers(h, b) <= h.taken
  {
  }

  lemma SteppedSound<C, S>(w: World<C, S>, records: seq<WalRecord<C, S>>, hard: Hardness)
    requires Sound(w) && LogRecords(records) && HardForward(HardOf(w.node.core), hard)
    ensures Sound(Stepped(w, records, hard))
    ensures Stepped(w, records, hard) != w ==> Dirty(Stepped(w, records, hard).node)
  {
    var n, h, w' := w.node, w.hist, Stepped(w, records, hard);
    if w' != w {
      ReplayAppend(h.states[h.taken], n.pending, records);
      ReplayKeepsHard(n.core, records, n.emitted);
      RealBaseKept(n.core, records);
    }
  }

  lemma SteppedKeeps<C, S>(w: World<C, S>, records: seq<WalRecord<C, S>>, hard: Hardness)
    requires Inv(w) && LogRecords(records) && HardForward(HardOf(w.node.core), hard)
    ensures Inv(Stepped(w, records, hard))
  {
    SteppedSound(w, records, hard);
    if Stepped(w, records, hard) != w {
      StatesGrow(w, Stepped(w, records, hard));
    }
  }

  /** A longer history of states changes nothing that was said of the earlier ones. */
  lemma StatesGrow<C, S>(w: World<C, S>, w': World<C, S>)
    requires Held(w) && w'.hist.rounds == w.hist.rounds && w'.hist.onDisk == w.hist.onDisk
             && Last(w.hist) <= Last(w'.hist)
    requires w'.node.gated == w.node.gated && w'.node.drained == w.node.drained && (Dirty(w.node) ==> Dirty(w'.node))
    ensures Held(w')
  {
    forall i | 0 <= i < |w'.node.gated|
      ensures BatchCovered(w', w'.node.gated[i])
    {
      assert BatchCovered(w, w.node.gated[i]);
    }
  }

  lemma InstalledSound<C, S>(w: World<C, S>, base: SnapshotBase<S>, config: Option<set<NodeId>>,
                             learners: Option<set<NodeId>>)
    requires Sound(w) && base.lastIndex > 0
    ensures Sound(Installed(w, base, config, learners))
    ensures Dirty(w.node) == Dirty(Installed(w, base, config, learners).node)
  {
    assert w.node.pending + [] == w.node.pending;
  }

  lemma InstalledKeeps<C, S>(w: World<C, S>, base: SnapshotBase<S>, config: Option<set<NodeId>>,
                             learners: Option<set<NodeId>>)
    requires Inv(w) && base.lastIndex > 0
    ensures Inv(Installed(w, base, config, learners))
  {
    InstalledSound(w, base, config, learners);
    StatesGrow(w, Installed(w, base, config, learners));
  }

  lemma {:induction false} KeepSorts(outs: seq<Out>, early: bool, ver: nat, owed: nat)
    requires forall i :: 0 <= i < |outs| ==> outs[i].ver == ver && outs[i].owed == owed
    ensures forall i :: 0 <= i < |Keep(outs, early)| ==>
              ShipsBeforeDurable(Keep(outs, early)[i].kind) == early && Keep(outs, early)[i].ver == ver
                && Keep(outs, early)[i].owed == owed
    decreases |outs|
  {
    if outs != [] {
      KeepSorts(outs[..|outs| - 1], early, ver, owed);
    }
  }

  lemma PushedKeepsHeld<C, S>(w: World<C, S>, round: nat, outs: seq<Out>, w': World<C, S>)
    requires Held(w) && w'.hist.states == w.hist.states && w'.hist.rounds == w.hist.rounds
             && w'.hist.onDisk == w.hist.onDisk
    requires w'.node.drained == w.node.drained && Dirty(w'.node) == Dirty(w.node)
    requires w'.node.gated == Pushed(w.node.gated, round, outs) && BatchCovered(w, (round, outs))
    requires Some(round) == GateRound(w.node.drained, w.node.durable, Dirty(w.node))
    ensures Held(w')
  {
    var gated := w'.node.gated;
    forall i | 0 <= i < |gated|
      ensures BatchCovered(w', gated[i]) && gated[i].0 <= round
    {
      assert gated[i] == if i < |w.node.gated| then w.node.gated[i] else (round, outs);
      assert BatchCovered(w, gated[i]);
    }
  }

  /** Nothing is owed or in flight, and no unrecorded install is off the disk: the messages are covered. */
  lemma ShipNowKeeps<C, S>(w: World<C, S>, outs: seq<Out>, owed: nat)
    requires Inv(w) && GateRound(w.node.drained, w.node.durable, Dirty(w.node)).None?
    requires owed == Owed(w)
    requires forall i :: 0 <= i < |outs| ==> outs[i].ver == w.hist.need && outs[i].owed == owed
    ensures Inv(Emitted(w, outs))
  {
    StatesGrow(w, Emitted(w, outs));
  }

  lemma NewBatchCovered<C, S>(w: World<C, S>, outs: seq<Out>, owed: nat, round: nat)
    requires Sound(w) && GateRound(w.node.drained, w.node.durable, Dirty(w.node)) == Some(round)
    requires owed == Owed(w)
    requires forall i :: 0 <= i < |outs| ==> outs[i].ver == w.hist.need && outs[i].owed == owed
    ensures BatchCovered(w, (round, outs))
  {
  }

  lemma PushConserves<C, S>(w: World<C, S>, round: nat, held: seq<Out>)
    requires Conserved(w)
    ensures w.hist.released + Flatten(Pushed(w.node.gated, round, held)) == w.hist.held + held
  {
    FlattenPushed(w.node.gated, round, held);
    assert w.hist.released + (Flatten(w.node.gated) + held) == w.hist.released + Flatten(w.node.gated) + held;
  }

  lemma HoldBackKeeps<C, S>(w: World<C, S>, outs: seq<Out>, owed: nat, round: nat)
    requires Inv(w) && GateRound(w.node.drained, w.node.durable, Dirty(w.node)) == Some(round)
    requires owed == Owed(w)
    requires forall i :: 0 <= i < |outs| ==> outs[i].ver == w.hist.need && outs[i].owed == owed
    ensures Inv(Emitted(w, outs))
  {
    var held := Keep(outs, false);
    KeepSorts(outs, true, w.hist.need, owed);
    KeepSorts(outs, false, w.hist.need, owed);
    NewBatchCovered(w, held, owed, round);
    PushedKeepsHeld(w, round, held, Emitted(w, outs));
    PushConserves(w, round, held);
  }

  lemma ProduceKeeps<C, S>(w: World<C, S>, outs: seq<(NodeId, MsgKind)>)
    requires Inv(w)
    ensures Inv(Produce(w, outs))
  {
    var owed := Owed(w);
    match GateRound(w.node.drained, w.node.durable, Dirty(w.node))
    case None => ShipNowKeeps(w, Kinds(outs, w.hist.need, owed), owed);
    case Some(round) => HoldBackKeeps(w, Kinds(outs, w.hist.need, owed), owed, round);
  }

  /** What a drain relies on. */
  predicate Drainable<C(==), S(==)>(w: World<C, S>) {
    && Ordered(w.hist) && Held(w) && |w.hist.rounds| == w.node.drained && w.node.durable <= w.node.drained
    && RoundsOnDisk(w)
    && RealBase(w.node.core) && w.node.core == w.hist.states[Last(w.hist)]
    && (!Dirty(w.node) ==> w.hist.need <= Covers(w.hist, w.node.drained) || w.hist.need == w.hist.install)
  }

  lemma TakenKeeps<C, S>(w: World<C, S>)
    requires Drainable(w)
    ensures Ordered(Taken(w).hist) && Recorded(Taken(w)) && RoundsOnDisk(Taken(w))
    ensures |Taken(w).hist.rounds| == Taken(w).node.drained
  {
    var w' := Taken(w);
    assert ReplayFrom(w'.node.core, []) == w'.node.core;
  }

  lemma TakenKeepsHeld<C, S>(w: World<C, S>)
    requires Drainable(w)
    ensures Held(Taken(w))
  {
    var w' := Taken(w);
    forall i | 0 <= i < |w'.node.gated|
      ensures BatchCovered(w', w'.node.gated[i])
    {
      assert BatchCovered(w, w.node.gated[i]);
    }
  }

  /** The queue does not depend on who is writing, nor on the core's own flags. */
  lemma SameQueue<C, S>(w: World<C, S>, w': World<C, S>)
    requires Held(w) && w'.hist.states == w.hist.states && w'.hist.rounds == w.hist.rounds
             && w.hist.onDisk <= w'.hist.onDisk
    requires w'.node.gated == w.node.gated && w'.node.drained == w.node.drained && Dirty(w'.node) == Dirty(w.node)
    ensures Held(w')
  {
    forall i | 0 <= i < |w'.node.gated|
      ensures BatchCovered(w', w'.node.gated[i])
    {
      assert BatchCovered(w, w.node.gated[i]);
    }
  }

  lemma StartAppendKeeps<C, S>(w: World<C, S>, w': World<C, S>)
    requires Inv(w) && Next(w, StartAppend, w')
    ensures Inv(w')
  {
    TakenKeeps(w);
    TakenKeepsHeld(w);
    SameQueue(Taken(w), w');
    DrainIsComplete(w.hist.states[w.hist.taken], w.node.core, w.node.pending, w.node.emitted);
  }

  lemma CompactingDrainable<C, S>(w: World<C, S>, core: PersistedState<C, S>)
    requires Inv(w) && RealBase(core) && HardOf(core) == HardOf(w.node.core)
    ensures Drainable(Compacting(w, core))
  {
    StatesGrow(w, Compacting(w, core));
  }

  lemma RewriteStartsRecorded<C, S>(w: World<C, S>, k: nat, base: SnapshotBase<S>, config: Option<set<NodeId>>,
                                    learners: Option<set<NodeId>>, w': World<C, S>)
    requires Inv(w) && Next(w, StartRewrite(k, base, config, learners), w')
    ensures Recorded(w') && RoundsOnDisk(w')
  {
    var core := StagedRewrite.CompactedBy(w.node.core, k, base, config, learners);
    CompactingDrainable(w, core);
    TakenKeeps(Compacting(w, core));
  }

  lemma RewriteStartsCounted<C, S>(w: World<C, S>, k: nat, base: SnapshotBase<S>, config: Option<set<NodeId>>,
                                   learners: Option<set<NodeId>>, w': World<C, S>)
    requires Inv(w) && Next(w, StartRewrite(k, base, config, learners), w')
    ensures Counted(w') && Ordered(w'.hist)
  {
  }

  lemma RewriteStartsStored<C, S>(w: World<C, S>, k: nat, base: SnapshotBase<S>, config: Option<set<NodeId>>,
                                  learners: Option<set<NodeId>>, w': World<C, S>)
    requires Inv(w) && Next(w, StartRewrite(k, base, config, learners), w')
    ensures Stored(w')
  {
    RewriteStartsCounted(w, k, base, config, learners, w');
    ImageIsExact(StagedRewrite.CompactedBy(w.node.core, k, base, config, learners));
    assert w'.hist.states[w'.hist.onDisk] == w.hist.states[w.hist.onDisk];
  }

  lemma RewriteStartsHeld<C, S>(w: World<C, S>, k: nat, base: SnapshotBase<S>, config: Option<set<NodeId>>,
                                learners: Option<set<NodeId>>, w': World<C, S>)
    requires Inv(w) && Next(w, StartRewrite(k, base, config, learners), w')
    ensures Held(w')
  {
    var core := StagedRewrite.CompactedBy(w.node.core, k, base, config, learners);
    var c := Compacting(w, core);
    CompactingDrainable(w, core);
    TakenKeepsHeld(c);
    SameQueue(Taken(c), w');
  }

  lemma StartRewriteKeeps<C, S>(w: World<C, S>, k: nat, base: SnapshotBase<S>, config: Option<set<NodeId>>,
                                learners: Option<set<NodeId>>, w': World<C, S>)
    requires Inv(w) && Next(w, StartRewrite(k, base, config, learners), w')
    ensures Inv(w')
  {
    RewriteStartsRecorded(w, k, base, config, learners, w');
    RewriteStartsCounted(w, k, base, config, learners, w');
    RewriteStartsStored(w, k, base, config, learners, w');
    RewriteStartsHeld(w, k, base, config, learners, w');
  }

  lemma StartRecoveryKeeps<C, S>(w: World<C, S>, w': World<C, S>)
    requires Inv(w) && Next(w, StartRecovery, w')
    ensures Inv(w')
  {
    TakenKeeps(w);
    TakenKeepsHeld(w);
    SameQueue(Taken(w), w');
    ImageIsExact(w.node.core);
  }

  lemma LandedKeeps<C, S>(w: World<C, S>, disk: seq<WalRecord<C, S>>, durable: nat, suspect: bool)
    requires Inv(w) && ReplayFrom(Empty(), disk) == w.hist.states[w.hist.taken]
    requires durable == w.node.drained
    ensures Inv(Landed(w, disk, durable, suspect))
  {
    SameQueue(w, Landed(w, disk, durable, suspect));
    CoversAscends(w.hist, durable, durable);
  }

  lemma ReleasingKeepsHeld<C, S>(w: World<C, S>, n: nat)
    requires Held(w) && n <= |w.node.gated|
    ensures Held(Releasing(w, n))
  {
    var gated, w' := w.node.gated, Releasing(w, n);
    forall i | 0 <= i < |w'.node.gated|
      ensures BatchCovered(w', w'.node.gated[i])
    {
      assert w'.node.gated[i] == gated[n + i] && BatchCovered(w, gated[n + i]);
    }
  }

  lemma ReleasingConserves<C, S>(w: World<C, S>, n: nat)
    requires Conserved(w) && n <= |w.node.gated|
    ensures Conserved(Releasing(w, n))
  {
    var gated := w.node.gated;
    FlattenAppend(gated[..n], gated[n..]);
    assert gated == gated[..n] + gated[n..];
    assert (w.hist.released + Flatten(gated[..n])) + Flatten(gated[n..])
           == w.hist.released + (Flatten(gated[..n]) + Flatten(gated[n..]));
  }

  predicate OutsOnDisk(outs: seq<Out>, onDisk: nat) {
    forall k :: 0 <= k < |outs| ==> OnDisk(outs[k], onDisk)
  }

  lemma BatchOnDisk<C, S>(w: World<C, S>, batch: (nat, seq<Out>))
    requires Sound(w) && BatchCovered(w, batch) && batch.0 <= w.node.durable
    ensures OutsOnDisk(batch.1, w.hist.onDisk)
  {
    CoversAscends(w.hist, batch.0, w.node.durable);
  }

  lemma {:induction false} BatchesOnDisk(batches: Batches<Out>, onDisk: nat)
    requires forall i :: 0 <= i < |batches| ==> OutsOnDisk(batches[i].1, onDisk)
    ensures OutsOnDisk(Flatten(batches), onDisk)
    decreases |batches|
  {
    if batches != [] {
      BatchesOnDisk(batches[1..], onDisk);
    }
  }

  lemma ReleasedAreOnDisk<C, S>(w: World<C, S>, n: nat)
    requires Inv(w) && n <= |w.node.gated| && forall i :: 0 <= i < n ==> w.node.gated[i].0 <= w.node.durable
    ensures OutsOnDisk(Flatten(w.node.gated[..n]), w.hist.onDisk)
  {
    forall i | 0 <= i < n
      ensures OutsOnDisk(w.node.gated[i].1, w.hist.onDisk)
    {
      assert BatchCovered(w, w.node.gated[i]);
      BatchOnDisk(w, w.node.gated[i]);
    }
    BatchesOnDisk(w.node.gated[..n], w.hist.onDisk);
  }

  lemma ReleasingKeeps<C, S>(w: World<C, S>, n: nat)
    requires Inv(w) && n <= |w.node.gated| && forall i :: 0 <= i < n ==> w.node.gated[i].0 <= w.node.durable
    ensures Inv(Releasing(w, n))
  {
    ReleasedAreOnDisk(w, n);
    ReleasingKeepsHeld(w, n);
    ReleasingConserves(w, n);
  }

  lemma IoOkKeeps<C, S>(w: World<C, S>, step: Step<C, S>, w': World<C, S>)
    requires Inv(w) && Next(w, step, w') && (step.AppendOk? || step.RewriteOk? || step.RecoveryOk?)
    ensures Inv(w')
  {
    var n := w.node;
    if step.AppendOk? {
      ReplayAppend(Empty(), n.disk, n.tail);
    }
    LandedKeeps(w, w'.node.disk, w'.node.durable, w'.node.suspect);
  }

  lemma IoFailsKeeps<C, S>(w: World<C, S>, step: Step<C, S>, w': World<C, S>)
    requires Inv(w) && Next(w, step, w') && (step.AppendFails? || step.RewriteFails? || step.RecoveryFails?)
    ensures Inv(w')
  {
    SameQueue(w, w');
  }

  lemma SettleKeeps<C, S>(w: World<C, S>, w': World<C, S>)
    requires Inv(w) && Next(w, Settle, w')
    ensures Inv(w')
  {
    forall i | 0 <= i < |w.node.gated|
      ensures w.node.gated[i].0 <= w.node.durable
    {
      assert BatchCovered(w, w.node.gated[i]);
    }
    ReleasingKeeps(w, |w.node.gated|);
  }

  lemma InvNext<C, S>(w: World<C, S>, step: Step<C, S>, w': World<C, S>)
    requires Inv(w) && Next(w, step, w')
    ensures Inv(w')
  {
    match step
    case CoreStep(records, hard, outs) =>
      SteppedKeeps(w, records, hard);
      ProduceKeeps(Stepped(w, records, hard), outs);
    case Install(base, config, learners, outs) =>
      InstalledKeeps(w, base, config, learners);
      ProduceKeeps(Installed(w, base, config, learners), outs);
    case StartAppend => StartAppendKeeps(w, w');
    case StartRewrite(k, base, config, learners) => StartRewriteKeeps(w, k, base, config, learners, w');
    case StartRecovery => StartRecoveryKeeps(w, w');
    case AppendOk => IoOkKeeps(w, step, w');
    case RewriteOk => IoOkKeeps(w, step, w');
    case RecoveryOk => IoOkKeeps(w, step, w');
    case Release => ReleasingKeeps(w, ReadyCount(w.node.gated, w.node.durable));
    case Settle => SettleKeeps(w, w');
    case _ => IoFailsKeeps(w, step, w');
  }

  lemma InvStepAt<C, S>(worlds: seq<World<C, S>>, steps: seq<Step<C, S>>, i: nat)
    requires StepAt(worlds, steps, i) && Inv(worlds[i])
    ensures Inv(worlds[i + 1])
  {
    InvNext(worlds[i], steps[i], worlds[i + 1]);
  }

  lemma InvStart<C, S>(w: World<C, S>)
    requires Starts(w)
    ensures Inv(w)
  {
  }

  lemma {:induction false} InvRun<C, S>(worlds: seq<World<C, S>>, steps: seq<Step<C, S>>, i: nat)
    requires Run(worlds, steps) && i <= |steps|
    ensures Inv(worlds[i])
  {
    if i == 0 {
      InvStart(worlds[0]);
    } else {
      InvRun(worlds, steps, i - 1);
      InvStepAt(worlds, steps, i - 1);
    }
  }

  // --- What every run promises ----------------------------------------------------------------------------

  /** A state a crash may leave: the file with any part of an unfinished append, or a rewrite's image. */
  ghost predicate CrashState<C, S>(n: Node<C, S>, st: PersistedState<C, S>) {
    || (exists m :: 0 <= m <= |n.tail| && st == ReplayFrom(Empty(), n.disk + n.tail[..m]))
    || (n.writer.Rewriting? && st == ReplayFrom(Empty(), n.writer.image))
    || (n.writer.Recovering? && st == ReplayFrom(Empty(), n.writer.image))
  }

  /** `st` is a state of the core at version `ver` or later, with some records emitted after it. */
  ghost predicate AtOrAfter<C, S>(w: World<C, S>, st: PersistedState<C, S>, ver: nat) {
    exists p: nat, m: nat :: ver <= p < |w.hist.states| && m <= |w.node.tail|
      && st == ReplayFrom(w.hist.states[p], w.node.tail[..m])
  }

  /** A crash may recover exactly what is on disk. */
  lemma CrashMayKeepOnlyTheDisk<C, S>(worlds: seq<World<C, S>>, steps: seq<Step<C, S>>, i: nat)
    requires Run(worlds, steps) && i <= |steps|
    ensures worlds[i].hist.onDisk < |worlds[i].hist.states|
    ensures CrashState(worlds[i].node, worlds[i].hist.states[worlds[i].hist.onDisk])
  {
    InvRun(worlds, steps, i);
    var n := worlds[i].node;
    assert n.disk + n.tail[..0] == n.disk;
  }

  /** Whatever a crash leaves is a state of the core at or after the version on disk. */
  lemma CrashKeepsTheDisk<C, S>(w: World<C, S>, st: PersistedState<C, S>)
    requires Inv(w) && CrashState(w.node, st)
    ensures AtOrAfter(w, st, w.hist.onDisk)
  {
    var n, h := w.node, w.hist;
    if m :| 0 <= m <= |n.tail| && st == ReplayFrom(Empty(), n.disk + n.tail[..m]) {
      ReplayAppend(Empty(), n.disk, n.tail[..m]);
      assert st == ReplayFrom(h.states[h.onDisk], n.tail[..m]);
    } else {
      assert n.tail[..0] == [];
      assert st == ReplayFrom(h.states[h.taken], n.tail[..0]);
    }
  }

  /**
   Every message that claims durability, once it has left the node, at once or from the queue: its
   step is on disk exactly when the install it owes is, and so always when it owes none.  A crash then
   recovers a state at or after that step.
   */
  lemma EverySentMessageIsOnDisk<C, S>(worlds: seq<World<C, S>>, steps: seq<Step<C, S>>, i: nat, k: nat)
    requires Run(worlds, steps) && i <= |steps| && k < |worlds[i].node.sent|
    requires !ShipsBeforeDurable(worlds[i].node.sent[k].kind)
    ensures var out, onDisk := worlds[i].node.sent[k], worlds[i].hist.onDisk;
            out.ver <= onDisk <==> out.owed <= onDisk
    ensures worlds[i].node.sent[k].owed <= worlds[i].hist.onDisk ==>
              forall st :: CrashState(worlds[i].node, st) ==> AtOrAfter(worlds[i], st, worlds[i].node.sent[k].ver)
  {
    InvRun(worlds, steps, i);
    var w := worlds[i];
    assert OnDisk(w.node.sent[k], w.hist.onDisk);
    if w.node.sent[k].owed <= w.hist.onDisk {
      forall st | CrashState(w.node, st)
        ensures AtOrAfter(w, st, w.node.sent[k].ver)
      {
        CrashKeepsTheDisk(w, st);
        LaterIsEnough(w, st, w.hist.onDisk, w.node.sent[k].ver);
      }
    }
  }

  lemma LaterIsEnough<C, S>(w: World<C, S>, st: PersistedState<C, S>, later: nat, ver: nat)
    requires AtOrAfter(w, st, later) && ver <= later
    ensures AtOrAfter(w, st, ver)
  {
    var p: nat, m: nat :| later <= p < |w.hist.states| && m <= |w.node.tail|
                          && st == ReplayFrom(w.hist.states[p], w.node.tail[..m]);
    assert ver <= p;
  }

  /** No message is stranded: with nothing pending, in flight or suspect, a release empties the queue. */
  lemma NothingIsStranded<C, S>(worlds: seq<World<C, S>>, steps: seq<Step<C, S>>, i: nat)
    requires Run(worlds, steps) && i <= |steps|
    ensures var n := worlds[i].node;
            && (forall b :: 0 <= b < |n.gated| ==>
                n.gated[b].0 <= n.drained || (n.gated[b].0 == n.drained + 1 && Dirty(n)))
            && (!Dirty(n) && n.writer.Idle? && !n.suspect ==> ReadyCount(n.gated, n.durable) == |n.gated|)
  {
    InvRun(worlds, steps, i);
    var n := worlds[i].node;
    forall b | 0 <= b < |n.gated|
      ensures n.gated[b].0 <= n.drained || (n.gated[b].0 == n.drained + 1 && Dirty(n))
    {
      assert BatchCovered(worlds[i], n.gated[b]);
    }
  }

  /** The round a step at this point would wait for, when it waits. */
  function NextGate<C, S>(n: Node<C, S>): nat {
    if Dirty(n) then n.drained + 1 else n.drained
  }

  lemma GateStep<C, S>(w: World<C, S>, step: Step<C, S>, w': World<C, S>)
    requires Inv(w) && Next(w, step, w')
    ensures NextGate(w.node) <= NextGate(w'.node)
  {
    if step.CoreStep? {
      SteppedSound(w, step.records, step.hard);
    } else if step.Install? {
      InstalledSound(w, step.base, step.config, step.learners);
    }
  }

  lemma OrderStep<C, S>(w: World<C, S>, step: Step<C, S>, w': World<C, S>)
    requires Next(w, step, w')
    ensures w.hist.held <= w'.hist.held && w.hist.released <= w'.hist.released
  {
  }

  lemma {:induction false} GatesRise<C, S>(worlds: seq<World<C, S>>, steps: seq<Step<C, S>>, i: nat, j: nat)
    requires Run(worlds, steps) && i <= j <= |steps|
    ensures NextGate(worlds[i].node) <= NextGate(worlds[j].node)
    ensures worlds[i].hist.held <= worlds[j].hist.held && worlds[i].hist.released <= worlds[j].hist.released
    decreases j
  {
    if i < j {
      GatesRise(worlds, steps, i, j - 1);
      RunStep(worlds, steps, j - 1);
    }
  }

  lemma RunStep<C, S>(worlds: seq<World<C, S>>, steps: seq<Step<C, S>>, i: nat)
    requires Run(worlds, steps) && i < |steps|
    ensures NextGate(worlds[i].node) <= NextGate(worlds[i + 1].node)
    ensures worlds[i].hist.held <= worlds[i + 1].hist.held && worlds[i].hist.released <= worlds[i + 1].hist.released
  {
    InvRun(worlds, steps, i);
    assert StepAt(worlds, steps, i);
    GateStep(worlds[i], steps[i], worlds[i + 1]);
    OrderStep(worlds[i], steps[i], worlds[i + 1]);
  }

  /** Gates never go back, so a batch is always pushed behind rounds no later than its own. */
  lemma GatesNeverGoBack<C, S>(worlds: seq<World<C, S>>, steps: seq<Step<C, S>>, i: nat, j: nat, a: nat, b: nat)
    requires Run(worlds, steps) && i <= j <= |steps|
    requires GateRound(worlds[i].node.drained, worlds[i].node.durable, Dirty(worlds[i].node)) == Some(a)
    requires GateRound(worlds[j].node.drained, worlds[j].node.durable, Dirty(worlds[j].node)) == Some(b)
    ensures a <= b
    ensures worlds[j].node.gated != [] ==> worlds[j].node.gated[|worlds[j].node.gated| - 1].0 <= b
  {
    GatesRise(worlds, steps, i, j);
    InvRun(worlds, steps, j);
    var n := worlds[j].node;
    if n.gated != [] {
      assert BatchCovered(worlds[j], n.gated[|n.gated| - 1]);
    }
  }

  /** What has been released, followed by what is held, is everything ever held back, in arrival order. */
  lemma ReleasesKeepArrivalOrder<C, S>(worlds: seq<World<C, S>>, steps: seq<Step<C, S>>, i: nat, j: nat)
    requires Run(worlds, steps) && i <= j <= |steps|
    ensures worlds[j].hist.released + Flatten(worlds[j].node.gated) == worlds[j].hist.held
    ensures worlds[i].hist.held <= worlds[j].hist.held && worlds[i].hist.released <= worlds[j].hist.released
  {
    InvRun(worlds, steps, j);
    GatesRise(worlds, steps, i, j);
  }

  // --- Installs that no record covers ----------------------------------------------------------------------

  /** When a step ships at once, its messages are on disk exactly when no unrecorded install is still off it. */
  lemma ShippedAtOnceIff<C, S>(worlds: seq<World<C, S>>, steps: seq<Step<C, S>>, i: nat)
    requires Run(worlds, steps) && i <= |steps|
    requires GateRound(worlds[i].node.drained, worlds[i].node.durable, Dirty(worlds[i].node)) == None
    ensures worlds[i].hist.need <= worlds[i].hist.onDisk <==> worlds[i].hist.install <= worlds[i].hist.onDisk
  {
    InvRun(worlds, steps, i);
  }

  /** Only these versions are owed. */
  predicate Owes(outs: seq<Out>, versions: set<nat>) {
    forall k :: 0 <= k < |outs| ==> outs[k].owed in versions
  }

  lemma {:induction false} KeepOwes(outs: seq<Out>, early: bool, versions: set<nat>)
    requires Owes(outs, versions)
    ensures Owes(Keep(outs, early), versions)
    decreases |outs|
  {
    if outs != [] {
      KeepOwes(outs[..|outs| - 1], early, versions);
    }
  }

  predicate OwesOnly<C, S>(w: World<C, S>, versions: set<nat>) {
    0 in versions && w.hist.install in versions && Owes(w.node.sent, versions) && Owes(w.hist.held, versions)
  }

  lemma ProduceOwes<C, S>(w: World<C, S>, outs: seq<(NodeId, MsgKind)>, versions: set<nat>)
    requires OwesOnly(w, versions)
    ensures OwesOnly(Produce(w, outs), versions)
  {
    var made := Kinds(outs, w.hist.need, Owed(w));
    KeepOwes(made, true, versions);
    KeepOwes(made, false, versions);
  }

  lemma ReleasingOwes<C, S>(w: World<C, S>, n: nat, versions: set<nat>)
    requires Inv(w) && OwesOnly(w, versions) && n <= |w.node.gated|
    ensures OwesOnly(Releasing(w, n), versions)
  {
    var gated := w.node.gated;
    FlattenAppend(gated[..n], gated[n..]);
    assert gated == gated[..n] + gated[n..];
    var out: seq<Out>, r := Flatten(gated[..n]), |w.hist.released|;
    forall k | 0 <= k < |out|
      ensures out[k].owed in versions
    {
      assert w.hist.held[r + k] == out[k];
    }
  }

  /** The version an install makes. */
  function Made<C, S>(w: World<C, S>, step: Step<C, S>): set<nat> {
    if step.Install? then {|w.hist.states|} else {}
  }

  lemma OwesStep<C, S>(w: World<C, S>, step: Step<C, S>, w': World<C, S>, versions: set<nat>)
    requires Inv(w) && Next(w, step, w') && OwesOnly(w, versions)
    ensures OwesOnly(w', versions + Made(w, step))
  {
    match step
    case CoreStep(records, hard, outs) => ProduceOwes(Stepped(w, records, hard), outs, versions);
    case Install(base, config, learners, outs) =>
      ProduceOwes(Installed(w, base, config, learners), outs, versions + Made(w, step));
    case Release => ReleasingOwes(w, ReadyCount(w.node.gated, w.node.durable), versions);
    case Settle => ReleasingOwes(w, |w.node.gated|, versions);
    case _ =>
  }

  lemma OwesStepAt<C, S>(worlds: seq<World<C, S>>, steps: seq<Step<C, S>>, i: nat, versions: set<nat>)
    requires Run(worlds, steps) && i < |steps| && OwesOnly(worlds[i], versions)
    ensures OwesOnly(worlds[i + 1], versions + Made(worlds[i], steps[i]))
  {
    InvRun(worlds, steps, i);
    assert StepAt(worlds, steps, i);
    OwesStep(worlds[i], steps[i], worlds[i + 1], versions);
  }

  /** The versions made by the installs of a run, and 0. */
  ghost function Installs<C, S>(worlds: seq<World<C, S>>, steps: seq<Step<C, S>>, i: nat): set<nat>
    requires |worlds| == |steps| + 1 && i <= |steps|
  {
    if i == 0 then {0} else Installs(worlds, steps, i - 1) + Made(worlds[i - 1], steps[i - 1])
  }

  lemma {:induction false} NoInstalls<C, S>(worlds: seq<World<C, S>>, steps: seq<Step<C, S>>, i: nat)
    requires |worlds| == |steps| + 1 && i <= |steps| && forall k :: 0 <= k < i ==> !steps[k].Install?
    ensures Installs(worlds, steps, i) == {0}
    decreases i
  {
    if i > 0 {
      NoInstalls(worlds, steps, i - 1);
    }
  }

  /** What any message owes is the version of an install of the run; a plane that records its installs has none. */
  lemma {:induction false} OwedAreInstalls<C, S>(worlds: seq<World<C, S>>, steps: seq<Step<C, S>>, i: nat)
    requires Run(worlds, steps) && i <= |steps|
    ensures OwesOnly(worlds[i], Installs(worlds, steps, i))
    decreases i
  {
    if i > 0 {
      OwedAreInstalls(worlds, steps, i - 1);
      OwesStepAt(worlds, steps, i - 1, Installs(worlds, steps, i - 1));
    }
  }

  /** Where every install is recorded, and rewrites are made under the lock, every message that has left is on disk. */
  lemma RecordedInstallsExemptNothing<C, S>(worlds: seq<World<C, S>>, steps: seq<Step<C, S>>, i: nat, k: nat)
    requires Run(worlds, steps) && i <= |steps| && forall j :: 0 <= j < i ==> !steps[j].Install?
    requires k < |worlds[i].node.sent| && !ShipsBeforeDurable(worlds[i].node.sent[k].kind)
    ensures worlds[i].node.sent[k].ver <= worlds[i].hist.onDisk
  {
    OwedAreInstalls(worlds, steps, i);
    NoInstalls(worlds, steps, i);
    EverySentMessageIsOnDisk(worlds, steps, i, k);
    assert worlds[i].node.sent[k].owed in {0};
  }

  /**
   The control plane answers a completed install before anything about it is on disk: the
   reply leaves at once, and a crash then recovers the state before the install.
   */
  lemma InstallReplyLeavesEarly(base: SnapshotBase<nat>)
    returns (worlds: seq<World<nat, nat>>, steps: seq<Step<nat, nat>>)
    requires base.lastIndex > 0
    ensures Run(worlds, steps) && |steps| == 1
    ensures worlds[1].node.sent == [Out("leader", InstallSnapshotResp, 1, 1)]
    ensures |worlds[1].hist.states| == 2 && worlds[1].hist.states[1].snapshot == Some(base)
    ensures CrashState(worlds[1].node, Empty()) && Empty<nat, nat>().snapshot == None
  {
    var start := Start<nat, nat>(Empty(), []);
    var outs := [("leader", InstallSnapshotResp)];
    var installed := Installed(start, base, None, None);
    steps := [Install(base, None, None, outs)];
    worlds := [start, Produce(installed, outs)];
    assert StepAt(worlds, steps, 0);
    CrashMayKeepOnlyTheDisk(worlds, steps, 1);
    assert Kinds(outs, 1, 1) == [Out("leader", InstallSnapshotResp, 1, 1)];
  }

  lemma Extended<C, S>(worlds: seq<World<C, S>>, steps: seq<Step<C, S>>, step: Step<C, S>, w: World<C, S>)
    requires Run(worlds, steps) && Next(worlds[|steps|], step, w)
    ensures Run(worlds + [w], steps + [step])
  {
    var more, all := worlds + [w], steps + [step];
    forall i | 0 <= i < |all|
      ensures StepAt(more, all, i)
    {
      if i < |steps| {
        assert StepAt(worlds, steps, i);
      }
    }
  }

  const REPLY: seq<(NodeId, MsgKind)> := [("leader", InstallSnapshotResp)]

  /** One entry is being appended as round 1. */
  lemma EntryIsBeingAppended(e: LogEntry<nat>) returns (worlds: seq<World<nat, nat>>, steps: seq<Step<nat, nat>>)
    ensures Run(worlds, steps) && |steps| == 2
    ensures var n, h := worlds[2].node, worlds[2].hist;
            && n.core == Empty().(log := [e]) && n.pending == [] && n.emitted == HardOf(n.core) && !n.suspect
            && n.drained == 1 && n.durable == 0 && n.gated == [] && n.sent == [] && n.writer == Appending(1)
            && h.states == [Empty(), n.core] && h.onDisk == 0 && h.taken == 1 && h.rounds == [1]
  {
    var start := Start<nat, nat>(Empty(), []);
    var records: seq<WalRecord<nat, nat>> := [Append(e)];
    var first := CoreStep(records, HardOf(start.node.core), []);
    var a := Produce(Stepped(start, records, HardOf(start.node.core)), []);
    ReplayOne(start.node.core, Append(e));
    Extended([start], [], first, a);
    var t := Taken(a);
    var b := t.(node := t.node.(writer := Appending(1),
                                tail := DrainRecords(a.node.core, a.node.pending, a.node.emitted)));
    Extended([start] + [a], [] + [first], StartAppend, b);
    worlds, steps := [start] + [a] + [b], [] + [first] + [StartAppend];
  }

  /** An install is answered meanwhile: the reply is held for the round in flight. */
  lemma ReplyIsHeld(e: LogEntry<nat>, base: SnapshotBase<nat>)
    returns (worlds: seq<World<nat, nat>>, steps: seq<Step<nat, nat>>)
    requires base.lastIndex > 0
    ensures Run(worlds, steps) && |steps| == 3
    ensures var n, h := worlds[3].node, worlds[3].hist;
            && n.gated == [(1, [Out("leader", InstallSnapshotResp, 2, 2)])] && n.sent == [] && !n.suspect
            && n.writer == Appending(1) && n.durable == 0 && h.taken == 1 && |h.states| == 3
            && h.states[1] == Empty().(log := [e]) && h.states[2].snapshot == Some(base)
  {
    worlds, steps := EntryIsBeingAppended(e);
    var install: Step<nat, nat> := Install(base, None, None, REPLY);
    var w := Produce(Installed(worlds[2], base, None, None), REPLY);
    Extended(worlds, steps, install, w);
    assert Kinds(REPLY, 2, 2) == [Out("leader", InstallSnapshotResp, 2, 2)];
    OneHeld(Out("leader", InstallSnapshotResp, 2, 2));
    worlds, steps := worlds + [w], steps + [install];
  }

  /**
   The same reply while a round is in flight: it is held for that round, leaves when the round
   lands, and a crash then recovers the state before the install.
   */
  lemma HeldReplyLeavesEarly(e: LogEntry<nat>, base: SnapshotBase<nat>)
    returns (worlds: seq<World<nat, nat>>, steps: seq<Step<nat, nat>>)
    requires base.lastIndex > 0
    ensures Run(worlds, steps) && |steps| == 5
    ensures worlds[3].node.gated == [(1, [Out("leader", InstallSnapshotResp, 2, 2)])] && worlds[3].node.sent == []
    ensures worlds[5].node.sent == [Out("leader", InstallSnapshotResp, 2, 2)] && worlds[5].hist.onDisk == 1
    ensures |worlds[5].hist.states| == 3 && worlds[5].hist.states[2].snapshot == Some(base)
    ensures CrashState(worlds[5].node, worlds[5].hist.states[1]) && worlds[5].hist.states[1].snapshot == None
  {
    worlds, steps := ReplyIsHeld(e, base);
    var w := worlds[3];
    var landed := Landed(w, w.node.disk + w.node.tail, 1, false);
    Extended(worlds, steps, AppendOk, landed);
    OneReady(landed.node.gated, landed.node.durable);
    var out := Releasing(landed, 1);
    Extended(worlds + [landed], steps + [AppendOk], Release, out);
    worlds, steps := worlds + [landed] + [out], steps + [AppendOk] + [Release];
    CrashMayKeepOnlyTheDisk(worlds, steps, 5);
  }

  lemma OneHeld(out: Out)
    ensures Keep([out], ShipsBeforeDurable(out.kind)) == [out] && Keep([out], !ShipsBeforeDurable(out.kind)) == []
  {
    assert [out][..0] == [];
  }

  lemma OneReady(gated: Batches<Out>, durable: nat)
    requires |gated| == 1 && gated[0].0 <= durable
    ensures ReadyCount(gated, durable) == 1 && Flatten(gated[..1]) == gated[0].1 && gated[1..] == []
  {
    assert gated[..1] == gated;
    assert Flatten(gated[1..]) == [];
  }
}

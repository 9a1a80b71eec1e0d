/**
 Watching metadata: replicas that apply a common history and publish it piece by
 piece, requests that read those pieces one at a time, and a watcher that
 installs the replies, delayed, reordered, repeated or lost.
 */
module Watch {
  import opened Wrappers
  import opened MetadataModel
  import opened KeyWrites
  import opened DeltaRing

  // --- Metadata at an index --------------------------------------------------------------------------

  predicate SaneHistory(h: seq<Entry>) {
    Rising(h) && (forall i :: 0 <= i < |h| ==> h[i].index > 0 && AllSane(h[i].writes))
  }

  lemma {:induction false} WritesAreSane(h: seq<Entry>, lo: nat, hi: nat)
    requires forall i :: 0 <= i < |h| ==> AllSane(h[i].writes)
    ensures AllSane(WritesIn(h, lo, hi))
    decreases |h|
  {
    if h != [] {
      WritesAreSane(h[..|h| - 1], lo, hi);
    }
  }

  /** The metadata once every command up to `i` is applied. */
  ghost function MetaAt(h: seq<Entry>, i: nat): Metadata
    requires SaneHistory(h)
  {
    WritesAreSane(h, 0, i);
    Fold(Default(), WritesIn(h, 0, i))
  }

  lemma {:induction false} FoldAppend(m: Metadata, a: seq<KeyWrite>, b: seq<KeyWrite>)
    requires AllSane(a) && AllSane(b)
    ensures Fold(m, a + b) == Fold(Fold(m, a), b)
    decreases |b|
  {
    if b == [] {
      assert a + b == a;
    } else {
      assert (a + b)[..|a + b| - 1] == a + b[..|b| - 1];
      FoldAppend(m, a, b[..|b| - 1]);
    }
  }

  lemma {:induction false} WritesSplit(h: seq<Entry>, lo: nat, mid: nat, hi: nat)
    requires Rising(h) && lo <= mid <= hi
    ensures WritesIn(h, lo, hi) == WritesIn(h, lo, mid) + WritesIn(h, mid, hi)
    decreases |h|
  {
    if h != [] {
      var front, last := h[..|h| - 1], h[|h| - 1];
      WritesSplit(front, lo, mid, hi);
      if last.index <= mid {
        forall i | 0 <= i < |front|
          ensures front[i].index <= mid
        {
          assert h[i].index < last.index;
        }
        NoWritesOutside(front, mid, hi);
      }
    }
  }

  /** A delta carries a copy from one index to another. */
  lemma DeltaAdvances(h: seq<Entry>, lo: nat, hi: nat)
    requires SaneHistory(h) && lo <= hi
    ensures AllSane(WritesIn(h, lo, hi)) && Fold(MetaAt(h, lo), WritesIn(h, lo, hi)) == MetaAt(h, hi)
  {
    WritesAreSane(h, 0, lo);
    WritesAreSane(h, lo, hi);
    WritesSplit(h, 0, lo, hi);
    FoldAppend(Default(), WritesIn(h, 0, lo), WritesIn(h, lo, hi));
  }

  // --- Replicas, requests and replies -------------------------------------------------------------------

  /** A request being served: its own mark, the index it read, nothing left but a full reply, the copy it read. */
  datatype Request =
    | Asked(lastSeen: nat)
    | Bounded(lastSeen: nat, current: nat)
    | Uncovered
    | Copied(copy: Metadata, at: nat)

  /**
   What a node has published, each as a number of entries: its metadata, its applied index,
   the entries its ring has seen and its watch.  The ring retains a window.
   */
  datatype Replica = Replica(cached: nat, applied: nat, ringed: nat, watched: nat, window: seq<Entry>,
                             serving: set<Request>)

  /** A reply; `at`, the index of the copy, is not on the wire. */
  datatype Reply =
    | Delta(lastSeen: nat, writes: seq<KeyWrite>, watermark: nat)
    | Full(copy: Metadata, watermark: nat, at: nat)

  /**
   The history, the replicas, the watcher's mark and copy, the replies under way, and, of the last
   full reply installed, where its copy and its watermark were read and the writes installed since.
   */
  datatype World = World(h: seq<Entry>, replicas: seq<Replica>, mark: nat, copy: Metadata, replies: set<Reply>,
                         copiedAt: nat, markedAt: nat, since: seq<KeyWrite>)

  datatype Step =
    | Commit(entry: Entry)
    | PublishCache(r: nat, n: nat)
    | PublishApplied(r: nat)
    | FeedRing(r: nat, window: seq<Entry>)
    | BumpWatch(r: nat)
    | Restart(r: nat)
    | Ask(r: nat)
    | AskStatus(r: nat)
    | ReadApplied(r: nat, request: Request)
    | ReadRing(r: nat, request: Request)
    | ReadCopy(r: nat)
    | ReadWatch(r: nat, request: Request)
    | Deliver(reply: Reply)

  function IndexOf(h: seq<Entry>, n: nat): nat
    requires n <= |h|
  {
    if n == 0 then 0 else h[n - 1].index
  }

  function Top(h: seq<Entry>): nat {
    IndexOf(h, |h|)
  }

  function Fresh(): Replica {
    Replica(0, 0, 0, 0, [], {})
  }

  function With(w: World, r: nat, replica: Replica): World
    requires r < |w.replicas|
  {
    w.(replicas := w.replicas[r := replica])
  }

  function Serving(w: World, r: nat, request: Request): World
    requires r < |w.replicas|
  {
    With(w, r, w.replicas[r].(serving := w.replicas[r].serving + {request}))
  }

  function Replied(w: World, reply: Reply): World {
    w.(replies := w.replies + {reply})
  }

  /** A delta is installed only onto the state it was asked for; a full copy only if it is no older. */
  function Observed(w: World, reply: Reply): World
    requires reply.Delta? ==> AllSane(reply.writes)
  {
    match reply
    case Delta(lastSeen, writes, watermark) =>
      if w.mark != lastSeen then w
      else w.(copy := Fold(w.copy, writes), mark := Max(w.mark, watermark), since := w.since + writes)
    case Full(copy, watermark, at) =>
      if watermark < w.mark then w
      else w.(copy := copy, mark := watermark, copiedAt := at, markedAt := watermark, since := [])
  }

  /**
   The apply task publishes a batch as metadata, index, ring and watch, in that order; an installed
   snapshot clears the ring instead of feeding it.  A request reads the index, then the ring, and, when
   the ring does not cover it, the metadata and then the watch.
   */
  ghost predicate ReplicaStep(w: World, step: Step, r: nat, w': World)
    requires r < |w.replicas|
  {
    var me := w.replicas[r];
    && me.cached <= |w.h| && me.applied <= |w.h| && me.watched <= |w.h| && me.ringed <= me.applied
    && match step
       case PublishCache(_, n) => me.watched == me.cached < n <= |w.h| && w' == With(w, r, me.(cached := n))
       case PublishApplied(_) => me.applied < me.cached && w' == With(w, r, me.(applied := me.cached))
       case FeedRing(_, window) =>
         && me.ringed < me.applied == me.cached && IsTail(window, me.window + w.h[me.ringed..me.applied])
         && w' == With(w, r, me.(ringed := me.applied, window := window))
       case BumpWatch(_) => me.watched < me.ringed == me.cached && w' == With(w, r, me.(watched := me.cached))
       case Restart(_) => w' == With(w, r, Fresh())
       case Ask(_) => w' == Serving(w, r, Asked(w.mark))
       case AskStatus(_) => w' == Serving(w, r, Uncovered)
       case ReadApplied(_, request) =>
         && request in me.serving && request.Asked?
         && var current := IndexOf(w.h, me.applied);
            w' == if request.lastSeen >= current then Replied(w, Delta(request.lastSeen, [], current))
                  else Serving(w, r, Bounded(request.lastSeen, current))
       case ReadRing(_, request) =>
         && request in me.serving && request.Bounded?
         && w' == if Covered(me.window, request.lastSeen, request.current)
                  then Replied(w, Delta(request.lastSeen, WritesIn(me.window, request.lastSeen, request.current),
                                        request.current))
                  else Serving(w, r, Uncovered)
       case ReadCopy(_) =>
         && Uncovered in me.serving && SaneHistory(w.h)
         && var at := IndexOf(w.h, me.cached);
            w' == Serving(w, r, Copied(MetaAt(w.h, at), at))
       case ReadWatch(_, request) =>
         && request in me.serving && request.Copied?
         && w' == Replied(w, Full(request.copy, IndexOf(w.h, me.watched), request.at))
       case _ => false
  }

  ghost predicate Next(w: World, step: Step, w': World) {
    match step
    case Commit(entry) => entry.index > Top(w.h) && AllSane(entry.writes) && w' == w.(h := w.h + [entry])
    case Deliver(reply) =>
      reply in w.replies && (reply.Delta? ==> AllSane(reply.writes)) && w' == Observed(w, reply)
    case _ => step.r < |w.replicas| && ReplicaStep(w, step, step.r, w')
  }

  /** A watcher's mirror: its copy and the mark it has observed. */
  class RemoteMirror {
    var copy: Metadata
    var latest: nat

    ghost predicate Shows(w: World)
      reads this
    {
      copy == w.copy && latest == w.mark
    }

    constructor ()
      ensures copy == Default() && latest == 0
    {
      copy, latest := Default(), 0;
    }

    method Observe(metadata: Metadata, watermark: nat, ghost at: nat, ghost w: World)
      requires Shows(w)
      modifies this
      ensures Shows(Observed(w, Full(metadata, watermark, at))) && old(latest) <= latest
    {
      if watermark >= latest {
        copy, latest := metadata, Max(latest, watermark);
      }
    }

    /** Install a delta write by write, unless the mirror has moved since it was asked for. */
    method ObserveDelta(lastSeen: nat, writes: seq<KeyWrite>, watermark: nat, ghost w: World) returns (applied: bool)
      requires Shows(w) && AllSane(writes)
      modifies this
      ensures Shows(Observed(w, Delta(lastSeen, writes, watermark))) && old(latest) <= latest
      ensures applied <==> old(latest) == lastSeen
    {
      if latest != lastSeen {
        return false;
      }
      for i := 0 to |writes|
        invariant copy == Fold(w.copy, writes[..i]) && latest == old(latest)
      {
        assert writes[..i + 1][..i] == writes[..i];
        assert Sane(writes[i]);
        copy := ApplyKeyWrite(copy, writes[i]);
      }
      assert writes[..|writes|] == writes;
      latest := Max(latest, watermark);
      applied := true;
    }
  }

  // --- What is under way is true of the history --------------------------------------------------------

  ghost predicate Truthful(h: seq<Entry>, reply: Reply)
    requires SaneHistory(h)
  {
    && reply.watermark <= Top(h)
    && match reply
       case Delta(lastSeen, writes, watermark) =>
         writes == if lastSeen >= watermark then [] else WritesIn(h, lastSeen, watermark)
       case Full(copy, watermark, at) => at <= Top(h) && copy == MetaAt(h, at)
  }

  ghost predicate RequestTrue(h: seq<Entry>, request: Request)
    requires SaneHistory(h)
  {
    match request
    case Bounded(lastSeen, current) => lastSeen < current <= Top(h)
    case Copied(copy, at) => at <= Top(h) && copy == MetaAt(h, at)
    case _ => true
  }

  ghost predicate ReplicaTrue(h: seq<Entry>, r: Replica)
    requires SaneHistory(h)
  {
    && r.watched <= r.ringed <= r.applied <= r.cached <= |h| && IsTail(r.window, h[..r.ringed])
    && forall request :: request in r.serving ==> RequestTrue(h, request)
  }

  /** The copy is the one last read, with every write after the watermark read since, up to the mark. */
  ghost predicate WatcherTrue(w: World)
    requires SaneHistory(w.h)
  {
    && w.copiedAt <= Top(w.h) && w.markedAt <= w.mark <= Top(w.h)
    && w.since == WritesIn(w.h, w.markedAt, w.mark) && AllSane(w.since)
    && w.copy == Fold(MetaAt(w.h, w.copiedAt), w.since)
  }

  ghost predicate Inv(w: World) {
    && SaneHistory(w.h)
    && (forall r :: 0 <= r < |w.replicas| ==> ReplicaTrue(w.h, w.replicas[r]))
    && (forall reply :: reply in w.replies ==> Truthful(w.h, reply))
    && WatcherTrue(w)
  }

  lemma RisingPrefix(h: seq<Entry>, n: nat)
    requires Rising(h) && n <= |h|
    ensures Rising(h[..n])
  {
  }

  lemma IndexBound(h: seq<Entry>, n: nat)
    requires Rising(h) && n <= |h|
    ensures IndexOf(h, n) <= Top(h)
  {
  }

  lemma GrowthKeepsRange(h: seq<Entry>, e: Entry, lo: nat, hi: nat)
    requires e.index > hi
    ensures WritesIn(h + [e], lo, hi) == WritesIn(h, lo, hi)
  {
    WritesInAppend(h, [e], lo, hi);
    NoWritesOutside([e], lo, hi);
  }

  lemma GrowthIsSane(h: seq<Entry>, e: Entry)
    requires SaneHistory(h) && e.index > Top(h) && AllSane(e.writes)
    ensures SaneHistory(h + [e])
  {
    RisingAppend(h, e);
  }

  lemma GrowthKeepsMeta(h: seq<Entry>, e: Entry, i: nat)
    requires SaneHistory(h) && e.index > Top(h) && AllSane(e.writes) && i <= Top(h)
    ensures SaneHistory(h + [e]) && MetaAt(h + [e], i) == MetaAt(h, i)
  {
    GrowthIsSane(h, e);
    GrowthKeepsRange(h, e, 0, i);
  }

  lemma CommitKeepsReplica(h: seq<Entry>, e: Entry, r: Replica)
    requires SaneHistory(h) && e.index > Top(h) && AllSane(e.writes) && ReplicaTrue(h, r)
    ensures SaneHistory(h + [e]) && ReplicaTrue(h + [e], r)
  {
    GrowthIsSane(h, e);
    assert (h + [e])[..r.ringed] == h[..r.ringed];
    forall request | request in r.serving
      ensures RequestTrue(h + [e], request)
    {
      assert RequestTrue(h, request);
      if request.Copied? {
        GrowthKeepsMeta(h, e, request.at);
      }
    }
  }

  lemma CommitKeepsReply(h: seq<Entry>, e: Entry, reply: Reply)
    requires SaneHistory(h) && e.index > Top(h) && AllSane(e.writes) && Truthful(h, reply)
    ensures SaneHistory(h + [e]) && Truthful(h + [e], reply)
  {
    GrowthIsSane(h, e);
    if reply.Delta? {
      GrowthKeepsRange(h, e, reply.lastSeen, reply.watermark);
    } else {
      GrowthKeepsMeta(h, e, reply.at);
    }
  }

  lemma CommitKeeps(w: World, entry: Entry)
    requires Inv(w) && entry.index > Top(w.h) && AllSane(entry.writes)
    ensures Inv(w.(h := w.h + [entry]))
  {
    GrowthIsSane(w.h, entry);
    forall reply | reply in w.replies
      ensures Truthful(w.h + [entry], reply)
    {
      CommitKeepsReply(w.h, entry, reply);
    }
    forall r | 0 <= r < |w.replicas|
      ensures ReplicaTrue(w.h + [entry], w.replicas[r])
    {
      CommitKeepsReplica(w.h, entry, w.replicas[r]);
    }
    GrowthKeepsMeta(w.h, entry, w.copiedAt);
    GrowthKeepsRange(w.h, entry, w.markedAt, w.mark);
  }

  lemma LaterEntriesAreHigher(h: seq<Entry>, n: nat, i: nat)
    requires Rising(h) && 0 < n <= i < |h|
    ensures h[i].index > IndexOf(h, n)
  {
    assert h[n - 1].index < h[i].index;
  }

  /** What a replica has not seen yet lies beyond what it answers for. */
  lemma PrefixRange(h: seq<Entry>, n: nat, lo: nat, hi: nat)
    requires Rising(h) && 0 < n <= |h| && hi <= IndexOf(h, n)
    ensures WritesIn(h[..n], lo, hi) == WritesIn(h, lo, hi)
  {
    var later := h[n..];
    forall i | 0 <= i < |later|
      ensures later[i].index > hi
    {
      LaterEntriesAreHigher(h, n, n + i);
    }
    assert h == h[..n] + later;
    WritesInAppend(h[..n], later, lo, hi);
    NoWritesOutside(later, lo, hi);
  }

  /** Whatever a ring answers, however far the replica has moved on since the index was read, is true. */
  lemma RingAnswersAreTruthful(h: seq<Entry>, r: Replica, lastSeen: nat, current: nat)
    requires SaneHistory(h) && ReplicaTrue(h, r) && lastSeen < current <= Top(h) && Covered(r.window, lastSeen, current)
    ensures Truthful(h, Delta(lastSeen, WritesIn(r.window, lastSeen, current), current))
  {
    var seen := h[..r.ringed];
    RisingPrefix(h, r.ringed);
    CoveredRangeIsWhole(r.window, seen, lastSeen, current);
    assert r.window[|r.window| - 1] == seen[|seen| - 1];
    PrefixRange(h, r.ringed, lastSeen, current);
  }

  lemma FedWindow(h: seq<Entry>, n: nat, upto: nat, old': seq<Entry>, window: seq<Entry>)
    requires n <= upto <= |h| && IsTail(old', h[..n]) && IsTail(window, old' + h[n..upto])
    ensures IsTail(window, h[..upto])
  {
    var cut := n - |old'|;
    assert h[..upto] == h[..cut] + (old' + h[n..upto]);
  }

  lemma ReplicaChanges(w: World, r: nat, replica: Replica)
    requires Inv(w) && r < |w.replicas| && ReplicaTrue(w.h, replica)
    ensures Inv(With(w, r, replica))
  {
  }

  lemma RequestAdded(w: World, r: nat, request: Request)
    requires Inv(w) && r < |w.replicas| && RequestTrue(w.h, request)
    ensures Inv(Serving(w, r, request))
  {
    var me := w.replicas[r];
    assert ReplicaTrue(w.h, me);
    ReplicaChanges(w, r, me.(serving := me.serving + {request}));
  }

  lemma ReplyAdded(w: World, reply: Reply)
    requires Inv(w) && Truthful(w.h, reply)
    ensures Inv(Replied(w, reply))
  {
  }

  lemma PublishKeeps(w: World, step: Step, w': World)
    requires Inv(w) && Next(w, step, w')
    requires step.PublishCache? || step.PublishApplied? || step.FeedRing? || step.BumpWatch? || step.Restart?
    ensures Inv(w')
  {
    var me := w.replicas[step.r];
    assert ReplicaTrue(w.h, me);
    if step.FeedRing? {
      FedWindow(w.h, me.ringed, me.applied, me.window, step.window);
    }
    ReplicaChanges(w, step.r, w'.replicas[step.r]);
  }

  lemma ReadKeeps(w: World, step: Step, w': World)
    requires Inv(w) && Next(w, step, w')
    requires step.ReadApplied? || step.ReadRing? || step.ReadCopy? || step.ReadWatch?
    ensures Inv(w')
  {
    var me := w.replicas[step.r];
    assert ReplicaTrue(w.h, me);
    match step
    case ReadApplied(r, request) =>
      var current := IndexOf(w.h, me.applied);
      IndexBound(w.h, me.applied);
      if request.lastSeen >= current {
        ReplyAdded(w, Delta(request.lastSeen, [], current));
      } else {
        RequestAdded(w, r, Bounded(request.lastSeen, current));
      }
    case ReadRing(r, request) =>
      assert RequestTrue(w.h, request);
      if Covered(me.window, request.lastSeen, request.current) {
        RingAnswersAreTruthful(w.h, me, request.lastSeen, request.current);
        ReplyAdded(w, Delta(request.lastSeen, WritesIn(me.window, request.lastSeen, request.current), request.current));
      } else {
        RequestAdded(w, r, Uncovered);
      }
    case ReadCopy(r) =>
      var at := IndexOf(w.h, me.cached);
      IndexBound(w.h, me.cached);
      RequestAdded(w, r, Copied(MetaAt(w.h, at), at));
    case ReadWatch(r, request) =>
      assert RequestTrue(w.h, request);
      IndexBound(w.h, me.watched);
      ReplyAdded(w, Full(request.copy, IndexOf(w.h, me.watched), request.at));
  }

  lemma ObservedKeeps(w: World, reply: Reply)
    requires Inv(w) && Truthful(w.h, reply) && (reply.Delta? ==> AllSane(reply.writes))
    ensures Inv(Observed(w, reply))
  {
    var start := MetaAt(w.h, w.copiedAt);
    if reply.Full? {
      NoWritesBetween(w.h, reply.watermark);
    } else if w.mark == reply.lastSeen {
      FoldAppend(start, w.since, reply.writes);
      if w.mark < reply.watermark {
        WritesSplit(w.h, w.markedAt, w.mark, reply.watermark);
      } else {
        assert w.since + [] == w.since;
      }
    }
  }

  lemma NoWritesBetween(h: seq<Entry>, i: nat)
    ensures WritesIn(h, i, i) == []
  {
    NoWritesOutside(h, i, i);
  }

  lemma InvNext(w: World, step: Step, w': World)
    requires Inv(w) && Next(w, step, w')
    ensures Inv(w')
  {
    match step
    case Commit(entry) => CommitKeeps(w, entry);
    case Ask(r) => RequestAdded(w, r, Asked(w.mark));
    case AskStatus(r) => RequestAdded(w, r, Uncovered);
    case Deliver(reply) => ObservedKeeps(w, reply);
    case ReadApplied(_, _) => ReadKeeps(w, step, w');
    case ReadRing(_, _) => ReadKeeps(w, step, w');
    case ReadCopy(_) => ReadKeeps(w, step, w');
    case ReadWatch(_, _) => ReadKeeps(w, step, w');
    case _ => PublishKeeps(w, step, w');
  }

  ghost predicate StepAt(worlds: seq<World>, steps: seq<Step>, i: nat) {
    i < |steps| && i + 1 < |worlds| && Next(worlds[i], steps[i], worlds[i + 1])
  }

  /** Any number of replicas, all empty, and a watcher that has seen nothing. */
  predicate Start(w: World) {
    && w.h == [] && w.mark == 0 && w.copy == Default() && w.replies == {}
    && w.copiedAt == 0 && w.markedAt == 0 && w.since == []
    && forall r :: 0 <= r < |w.replicas| ==> w.replicas[r] == Fresh()
  }

  ghost predicate Run(worlds: seq<World>, steps: seq<Step>) {
    |worlds| == |steps| + 1 && Start(worlds[0]) && forall i :: 0 <= i < |steps| ==> StepAt(worlds, steps, i)
  }

  lemma {:induction false} InvRun(worlds: seq<World>, steps: seq<Step>, i: nat)
    requires Run(worlds, steps) && i <= |steps|
    ensures Inv(worlds[i])
  {
    if i > 0 {
      InvRun(worlds, steps, i - 1);
      assert StepAt(worlds, steps, i - 1);
      InvNext(worlds[i - 1], steps[i - 1], worlds[i]);
    }
  }

  // --- When the copy is the metadata at the watcher's mark ---------------------------------------------

  lemma {:induction false} TouchedRow(start: Option<Row>, other: Option<Row>, writes: seq<KeyWrite>, key: Key)
    requires Touches(writes, key)
    ensures RowAfter(start, writes, key) == RowAfter(other, writes, key)
    decreases |writes|
  {
    if writes[|writes| - 1].key != key {
      var i :| 0 <= i < |writes| && writes[i].key == key;
      assert writes[..|writes| - 1][i].key == key;
      TouchedRow(start, other, writes[..|writes| - 1], key);
    }
  }

  /** The rows of two metadata values differ at `key`. */
  predicate Differ(a: Metadata, b: Metadata, key: Key) {
    key != FORMAT_VERSION_KEY && Lookup(a, key) != Lookup(b, key)
  }

  /** Every row that differs is written. */
  ghost predicate Rewritten(a: Metadata, b: Metadata, writes: seq<KeyWrite>) {
    forall key :: Differ(a, b, key) ==> Touches(writes, key)
  }

  lemma FoldedRow(a: Metadata, b: Metadata, writes: seq<KeyWrite>, key: Key)
    requires AllSane(writes) && key != FORMAT_VERSION_KEY
    ensures Lookup(Fold(a, writes), key) == Lookup(Fold(b, writes), key) <==> !Differ(a, b, key) || Touches(writes, key)
  {
    FoldLookup(a, writes, key);
    FoldLookup(b, writes, key);
    if Touches(writes, key) {
      TouchedRow(Lookup(a, key), Lookup(b, key), writes, key);
    } else {
      UntouchedRow(Lookup(a, key), writes, key);
      UntouchedRow(Lookup(b, key), writes, key);
    }
  }

  /** The same writes bring two values together exactly when they write every row in which the two differ. */
  lemma FoldsMeetIff(a: Metadata, b: Metadata, writes: seq<KeyWrite>)
    requires AllSane(writes)
    ensures Fold(a, writes) == Fold(b, writes) <==> Rewritten(a, b, writes)
  {
    forall key | key != FORMAT_VERSION_KEY
      ensures Lookup(Fold(a, writes), key) == Lookup(Fold(b, writes), key)
              <==> !Differ(a, b, key) || Touches(writes, key)
    {
      FoldedRow(a, b, writes, key);
    }
    if Rewritten(a, b, writes) {
      forall key
        ensures Lookup(Fold(a, writes), key) == Lookup(Fold(b, writes), key)
      {
        if key != FORMAT_VERSION_KEY {
          assert Differ(a, b, key) ==> Touches(writes, key);
        }
      }
      SameRowsSameMetadata(Fold(a, writes), Fold(b, writes));
    }
  }

  /**
   After any run: the watcher's copy is the metadata at the watcher's own mark exactly when every row
   changed between the two reads of the last full reply installed has been written again since.
   */
  lemma WatcherAgreesIff(worlds: seq<World>, steps: seq<Step>, i: nat)
    requires Run(worlds, steps) && i <= |steps|
    ensures var w := worlds[i];
            && SaneHistory(w.h) && w.copiedAt <= Top(w.h) && w.markedAt <= w.mark <= Top(w.h)
            && w.since == WritesIn(w.h, w.markedAt, w.mark)
            && (w.copy == MetaAt(w.h, w.mark)
                <==> Rewritten(MetaAt(w.h, w.copiedAt), MetaAt(w.h, w.markedAt), w.since))
  {
    InvRun(worlds, steps, i);
    var w := worlds[i];
    DeltaAdvances(w.h, w.markedAt, w.mark);
    FoldsMeetIff(MetaAt(w.h, w.copiedAt), MetaAt(w.h, w.markedAt), w.since);
  }

  /** The two reads fell on the same applied index: the copy is exact from then on, whatever follows. */
  lemma WatcherAgrees(worlds: seq<World>, steps: seq<Step>, i: nat)
    requires Run(worlds, steps) && i <= |steps| && worlds[i].copiedAt == worlds[i].markedAt
    ensures SaneHistory(worlds[i].h) && worlds[i].copy == MetaAt(worlds[i].h, worlds[i].mark)
  {
    WatcherAgreesIff(worlds, steps, i);
  }

  lemma MetaLookup(h: seq<Entry>, lo: nat, hi: nat, key: Key)
    requires SaneHistory(h) && lo <= hi && key != FORMAT_VERSION_KEY
    ensures Lookup(MetaAt(h, hi), key) == RowAfter(Lookup(MetaAt(h, lo), key), WritesIn(h, lo, hi), key)
  {
    DeltaAdvances(h, lo, hi);
    FoldLookup(MetaAt(h, lo), WritesIn(h, lo, hi), key);
  }

  /** Rows that differ between two indices were written in between. */
  lemma ChangedIsWritten(h: seq<Entry>, lo: nat, hi: nat)
    requires SaneHistory(h) && lo <= hi
    ensures Rewritten(MetaAt(h, hi), MetaAt(h, lo), WritesIn(h, lo, hi))
  {
    forall key | Differ(MetaAt(h, hi), MetaAt(h, lo), key)
      ensures Touches(WritesIn(h, lo, hi), key)
    {
      MetaLookup(h, lo, hi, key);
      if !Touches(WritesIn(h, lo, hi), key) {
        UntouchedRow(Lookup(MetaAt(h, lo), key), WritesIn(h, lo, hi), key);
      }
    }
  }

  lemma TouchesAppend(a: seq<KeyWrite>, b: seq<KeyWrite>, key: Key)
    requires Touches(a, key)
    ensures Touches(a + b, key)
  {
    var i :| 0 <= i < |a| && a[i].key == key;
    assert (a + b)[i].key == key;
  }

  /**
   A copy read ahead of its watermark, as when the metadata is published and the watch is not yet,
   is exact once the mark has caught up with it.
   */
  lemma NewerCopyHeals(worlds: seq<World>, steps: seq<Step>, i: nat)
    requires Run(worlds, steps) && i <= |steps| && worlds[i].markedAt <= worlds[i].copiedAt <= worlds[i].mark
    ensures SaneHistory(worlds[i].h) && worlds[i].copy == MetaAt(worlds[i].h, worlds[i].mark)
  {
    WatcherAgreesIff(worlds, steps, i);
    var w := worlds[i];
    WritesSplit(w.h, w.markedAt, w.copiedAt, w.mark);
    ChangedIsWritten(w.h, w.markedAt, w.copiedAt);
    forall key | Differ(MetaAt(w.h, w.copiedAt), MetaAt(w.h, w.markedAt), key)
      ensures Touches(w.since, key)
    {
      TouchesAppend(WritesIn(w.h, w.markedAt, w.copiedAt), WritesIn(w.h, w.copiedAt, w.mark), key);
    }
  }

  // --- A run in which a command lands between the two reads -------------------------------------------

  lemma Extended(worlds: seq<World>, steps: seq<Step>, step: Step, w: World)
    requires Run(worlds, steps) && Next(worlds[|steps|], step, w)
    ensures Run(worlds + [w], steps + [step])
  {
    var more, all := worlds + [w], steps + [step];
    forall i | 0 <= i < |all|
      ensures StepAt(more, all, i)
    {
      if i < |steps| {
        assert StepAt(worlds, steps, i);
      }
    }
  }

  /** Replica 0 publishes everything up to entry `n`, retaining `window`. */
  lemma Published(worlds: seq<World>, steps: seq<Step>, n: nat, window: seq<Entry>)
    returns (more: seq<World>, all: seq<Step>)
    requires Run(worlds, steps) && |worlds[|steps|].replicas| > 0 && n <= |worlds[|steps|].h|
    requires var me := worlds[|steps|].replicas[0];
             && me.watched == me.ringed == me.applied == me.cached < n
             && IsTail(window, me.window + worlds[|steps|].h[me.cached..n])
    ensures Run(more, all)
    ensures var w := worlds[|steps|];
            more[|all|] == With(w, 0, Replica(n, n, n, n, window, w.replicas[0].serving))
  {
    var w := worlds[|steps|];
    var me := w.replicas[0];
    var a := With(w, 0, me.(cached := n));
    var b := With(a, 0, a.replicas[0].(applied := n));
    var c := With(b, 0, b.replicas[0].(ringed := n, window := window));
    var d := With(c, 0, c.replicas[0].(watched := n));
    Extended(worlds, steps, PublishCache(0, n), a);
    Extended(worlds + [a], steps + [PublishCache(0, n)], PublishApplied(0), b);
    Extended(worlds + [a] + [b], steps + [PublishCache(0, n)] + [PublishApplied(0)], FeedRing(0, window), c);
    more := worlds + [a] + [b] + [c];
    all := steps + [PublishCache(0, n)] + [PublishApplied(0)] + [FeedRing(0, window)];
    Extended(more, all, BumpWatch(0), d);
    more, all := more + [d], all + [BumpWatch(0)];
  }

  function Quiet(): Entry {
    Entry(1, [])
  }

  lemma TwoEntries(w: KeyWrite)
    requires Sane(w)
    ensures var h := [Quiet(), Entry(2, [w])];
            && SaneHistory([Quiet()]) && SaneHistory(h)
            && MetaAt([Quiet()], 1) == Default() && MetaAt(h, 2) == ApplyKeyWrite(Default(), w)
  {
    var h := [Quiet(), Entry(2, [w])];
    assert h[..1] == [Quiet()] && [Quiet()][..0] == [];
    assert WritesIn([Quiet()], 0, 1) == [] && WritesIn([Quiet()], 0, 2) == [];
    assert WritesIn(h, 0, 2) == [] + [w] == [w];
    assert [w][..0] == [];
  }

  function Lone(): World {
    World([], [Fresh()], 0, Default(), {}, 0, 0, [])
  }

  /** A replica at index 1, by an installed snapshot, with an empty ring. */
  lemma SnapshotIsInstalled() returns (worlds: seq<World>, steps: seq<Step>)
    ensures Run(worlds, steps)
    ensures worlds[|steps|] == Lone().(h := [Quiet()], replicas := [Replica(1, 1, 1, 1, [], {})])
  {
    var w := Lone().(h := [Quiet()]);
    Extended([Lone()], [], Commit(Quiet()), w);
    worlds, steps := Published([Lone()] + [w], [] + [Commit(Quiet())], 1, []);
  }

  /** It cannot answer a watcher at 0. */
  lemma RequestIsUncovered() returns (worlds: seq<World>, steps: seq<Step>)
    ensures Run(worlds, steps)
    ensures var w := worlds[|steps|];
            w == Lone().(h := [Quiet()],
                         replicas := [Replica(1, 1, 1, 1, [], {Asked(0), Bounded(0, 1), Uncovered})])
  {
    worlds, steps := SnapshotIsInstalled();
    var w := worlds[|steps|];
    var a := Serving(w, 0, Asked(0));
    Extended(worlds, steps, Ask(0), a);
    worlds, steps := worlds + [a], steps + [Ask(0)];
    var b := Serving(a, 0, Bounded(0, 1));
    Extended(worlds, steps, ReadApplied(0, Asked(0)), b);
    worlds, steps := worlds + [b], steps + [ReadApplied(0, Asked(0))];
    var c := Serving(b, 0, Uncovered);
    Extended(worlds, steps, ReadRing(0, Bounded(0, 1)), c);
    worlds, steps := worlds + [c], steps + [ReadRing(0, Bounded(0, 1))];
    assert c.replicas[0].serving == {Asked(0), Bounded(0, 1), Uncovered};
  }

  /** The request reads its copy, the next command is applied, and the request reads its watermark. */
  lemma CopyThenCommand(k: KeyWrite) returns (worlds: seq<World>, steps: seq<Step>)
    requires Sane(k)
    ensures Run(worlds, steps)
    ensures var w := worlds[|steps|];
            && w.h == [Quiet(), Entry(2, [k])] && w.mark == 0 && Full(Default(), 2, 1) in w.replies
  {
    TwoEntries(k);
    worlds, steps := RequestIsUncovered();
    var w := worlds[|steps|];
    var a := Serving(w, 0, Copied(Default(), 1));
    Extended(worlds, steps, ReadCopy(0), a);
    worlds, steps := worlds + [a], steps + [ReadCopy(0)];
    var b := a.(h := [Quiet(), Entry(2, [k])]);
    assert a.h + [Entry(2, [k])] == b.h;
    Extended(worlds, steps, Commit(Entry(2, [k])), b);
    worlds, steps := worlds + [b], steps + [Commit(Entry(2, [k]))];
    assert [] + b.h[1..2] == [Entry(2, [k])];
    worlds, steps := Published(worlds, steps, 2, [Entry(2, [k])]);
    var c := worlds[|steps|];
    assert Copied(Default(), 1) in c.replicas[0].serving;
    var d := Replied(c, Full(Default(), 2, 1));
    Extended(worlds, steps, ReadWatch(0, Copied(Default(), 1)), d);
    worlds, steps := worlds + [d], steps + [ReadWatch(0, Copied(Default(), 1))];
  }

  /** A run of the code that leaves the watcher at index 2 with the metadata of index 1. */
  lemma CommandBetweenReadsIsMissed(k: KeyWrite) returns (worlds: seq<World>, steps: seq<Step>)
    requires Sane(k) && ApplyKeyWrite(Default(), k) != Default()
    ensures Run(worlds, steps)
    ensures var w := worlds[|steps|];
            && SaneHistory(w.h) && w.copiedAt == 1 && w.markedAt == w.mark == 2 && w.copy != MetaAt(w.h, w.mark)
  {
    TwoEntries(k);
    worlds, steps := CopyThenCommand(k);
    var w := worlds[|steps|];
    var reply := Full(Default(), 2, 1);
    Extended(worlds, steps, Deliver(reply), Observed(w, reply));
    worlds, steps := worlds + [Observed(w, reply)], steps + [Deliver(reply)];
  }
}

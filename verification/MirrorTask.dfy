/**
 The apply task's mirror: apply a command in place, derive its key writes, and
 install received writes onto a copy.
 */
module MirrorTask {
  import opened Wrappers
  import opened WalRecords
  import opened MetadataModel
  import opened KeyWrites
  import opened MetaCommands
  import opened Mirror

  // --- Tablet ids are never reused -------------------------------------------------------------------

  /** `child` is taken for a split of `parent` that has not been cut over. */
  predicate Reserved(m: Metadata, parent: TabletId, child: TabletId) {
    parent in m.tablets && m.tablets[parent].split.Some?
    && (child == m.tablets[parent].split.value.left || child == m.tablets[parent].split.value.right)
  }

  /** Live and reserved ids are below the counter, apart from each other, and no lineage parent is either again. */
  ghost predicate IdsFresh(m: Metadata) {
    && (forall id :: id in m.tablets ==> id < m.nextTabletId)
    && (forall p: TabletId, c: TabletId :: Reserved(m, p, c) ==> c < m.nextTabletId && c !in m.tablets)
    && (forall p: TabletId, q: TabletId, c: TabletId :: Reserved(m, p, c) && Reserved(m, q, c) ==> p == q)
    && (forall id :: id in m.splitLineage ==> ParentRetired(m, m.splitLineage[id].parent))
  }

  ghost predicate ParentRetired(m: Metadata, parent: TabletId) {
    parent < m.nextTabletId && parent !in m.tablets && forall p: TabletId :: !Reserved(m, p, parent)
  }

  lemma DefaultIdsFresh()
    ensures IdsFresh(Default())
  {
  }

  /** Tablets, lineage and the counter unchanged. */
  lemma IdsUntouched(m: Metadata, post: Metadata)
    requires IdsFresh(m) && post.tablets == m.tablets && post.splitLineage == m.splitLineage
             && post.nextTabletId == m.nextTabletId
    ensures IdsFresh(post)
  {
    forall p: TabletId, c: TabletId
      ensures Reserved(post, p, c) == Reserved(m, p, c)
    {
    }
  }

  /** Tablets that go, or keep their split intent, free no id for reuse. */
  lemma IdsShrink(m: Metadata, post: Metadata)
    requires IdsFresh(m) && post.splitLineage == m.splitLineage && post.nextTabletId == m.nextTabletId
    requires forall id :: id in post.tablets ==> id in m.tablets && post.tablets[id].split == m.tablets[id].split
    ensures IdsFresh(post)
  {
    forall p: TabletId, c: TabletId | Reserved(post, p, c)
      ensures Reserved(m, p, c)
    {
    }
    forall id | id in post.splitLineage
      ensures ParentRetired(post, post.splitLineage[id].parent)
    {
      assert ParentRetired(m, m.splitLineage[id].parent);
    }
  }

  lemma CreateKeepsIds(m: Metadata, tablet: TabletId, t: Tablet, next: nat)
    requires IdsFresh(m) && tablet >= m.nextTabletId && t.split.None? && next == Max(m.nextTabletId, tablet + 1)
    ensures IdsFresh(m.(tablets := m.tablets[tablet := t], nextTabletId := next))
  {
    var post := m.(tablets := m.tablets[tablet := t], nextTabletId := next);
    forall p: TabletId, c: TabletId | Reserved(post, p, c)
      ensures Reserved(m, p, c)
    {
    }
    forall id | id in post.splitLineage
      ensures ParentRetired(post, post.splitLineage[id].parent)
    {
      assert ParentRetired(m, m.splitLineage[id].parent);
    }
  }

  lemma BeginSplitKeepsIds(m: Metadata, parent: TabletId, epoch: nat, intent: SplitIntent)
    requires IdsFresh(m) && ApplyBeginSplit(m, parent, epoch, intent).Applied?
    ensures IdsFresh(ApplyBeginSplit(m, parent, epoch, intent).meta)
  {
    var post := ApplyBeginSplit(m, parent, epoch, intent).meta;
    assert !BelowFloor(m, intent.left) && !BelowFloor(m, intent.right);
    forall p: TabletId, c: TabletId | Reserved(post, p, c)
      ensures if p == parent then c == intent.left || c == intent.right else Reserved(m, p, c)
    {
    }
    forall id | id in post.splitLineage
      ensures ParentRetired(post, post.splitLineage[id].parent)
    {
      assert ParentRetired(m, m.splitLineage[id].parent);
    }
  }

  lemma CutoverKeepsIds(rules: Rules, m: Metadata, parent: TabletId, epoch: nat, wallMs: nat)
    requires IdsFresh(m) && ApplyCutoverSplit(rules, m, parent, epoch, wallMs).Applied?
    ensures IdsFresh(ApplyCutoverSplit(rules, m, parent, epoch, wallMs).meta)
  {
    var post := ApplyCutoverSplit(rules, m, parent, epoch, wallMs).meta;
    var intent := m.tablets[parent].split.value;
    assert Reserved(m, parent, intent.left) && Reserved(m, parent, intent.right);
    forall p: TabletId, c: TabletId | Reserved(post, p, c)
      ensures Reserved(m, p, c) && p != parent
    {
    }
    forall id | id in post.splitLineage
      ensures ParentRetired(post, post.splitLineage[id].parent)
    {
      if id != intent.left && id != intent.right {
        assert ParentRetired(m, m.splitLineage[id].parent);
      }
    }
  }

  predicate MovesTablets(command: Command) {
    || command.CreateTablet? || command.BeginSplitInPlace? || command.CutoverSplit? || command.CasTabletReplicas?
    || command.DropTableTablets? || command.BeginRestore? || command.BeginImport?
  }

  predicate TabletsStay(m: Metadata, post: Metadata) {
    post.tablets == m.tablets && post.splitLineage == m.splitLineage && post.nextTabletId == m.nextTabletId
  }

  predicate TabletFact(key: Key) {
    key.TabletKey? || key.LineageKey? || key == CounterKey(NextTabletId)
  }

  lemma OthersWriteNoTablet(pre: Metadata, post: Metadata, command: Command)
    requires !MovesTablets(command)
    ensures forall key :: key in DerivedKeys(pre, post, command) ==> !TabletFact(key)
  {
  }

  lemma UnwrittenTabletsStay(m: Metadata, post: Metadata, keys: set<Key>)
    requires Covers(m, post, keys) && forall key :: key in keys ==> !TabletFact(key)
    ensures TabletsStay(m, post)
  {
    forall id: TabletId
      ensures id in m.tablets <==> id in post.tablets
      ensures id in m.tablets ==> m.tablets[id] == post.tablets[id]
      ensures id in m.splitLineage <==> id in post.splitLineage
      ensures id in m.splitLineage ==> m.splitLineage[id] == post.splitLineage[id]
    {
      assert TabletFact(TabletKey(id)) && TabletFact(LineageKey(id));
      assert Lookup(m, TabletKey(id)) == Lookup(post, TabletKey(id));
      assert Lookup(m, LineageKey(id)) == Lookup(post, LineageKey(id));
    }
    assert TabletFact(CounterKey(NextTabletId));
    assert Lookup(m, CounterKey(NextTabletId)) == Lookup(post, CounterKey(NextTabletId));
  }

  lemma OthersLeaveTablets(rules: Rules, m: Metadata, command: Command)
    requires ApplyCommand(rules, m, command).Applied? && !MovesTablets(command)
    ensures TabletsStay(m, ApplyCommand(rules, m, command).meta)
  {
    var post := ApplyCommand(rules, m, command).meta;
    CommandCovers(rules, m, command);
    OthersWriteNoTablet(m, post, command);
    UnwrittenTabletsStay(m, post, DerivedKeys(m, post, command));
  }

  /** From an empty cluster on, whatever is applied, no tablet id is ever used twice. */
  lemma CommandKeepsIds(rules: Rules, m: Metadata, command: Command)
    requires IdsFresh(m)
    ensures IdsFresh(After(ApplyCommand(rules, m, command), m))
  {
    var o := ApplyCommand(rules, m, command);
    if o.Applied? {
      if !MovesTablets(command) {
        OthersLeaveTablets(rules, m, command);
        IdsUntouched(m, o.meta);
      } else {
        MoversKeepIds(rules, m, command);
      }
    }
  }

  lemma MoversKeepIds(rules: Rules, m: Metadata, command: Command)
    requires IdsFresh(m) && ApplyCommand(rules, m, command).Applied? && MovesTablets(command)
    ensures IdsFresh(ApplyCommand(rules, m, command).meta)
  {
    match command
    case CreateTablet(tablet, scope, range, replicas) => CreateTabletKeepsIds(m, tablet, scope, range, replicas);
    case BeginSplitInPlace(parent, epoch, intent) => BeginSplitKeepsIds(m, parent, epoch, intent);
    case CutoverSplit(parent, epoch, wallMs) => CutoverKeepsIds(rules, m, parent, epoch, wallMs);
    case CasTabletReplicas(tablet, epoch, replicas) =>
      IdsShrink(m, ApplyCasTabletReplicas(m, tablet, epoch, replicas).meta);
    case DropTableTablets(table) => IdsShrink(m, ApplyDropTableTablets(m, table).meta);
    case BeginRestore(restore, row, replicas) =>
      MintKeepsIds(m, row.tablet, row.target, replicas, ApplyBeginRestore(m, restore, row, replicas).meta);
    case BeginImport(job, row, replicas) =>
      MintKeepsIds(m, row.tablet, row.target, replicas, ApplyBeginImport(m, job, row, replicas).meta);
  }

  lemma MintKeepsIds(m: Metadata, tablet: TabletId, table: TableName, replicas: set<NodeId>, post: Metadata)
    requires IdsFresh(m) && !BelowFloor(m, tablet) && TabletsStay(Minted(m, tablet, table, replicas), post)
    ensures IdsFresh(post)
  {
    var minted := Minted(m, tablet, table, replicas);
    CreateKeepsIds(m, tablet, minted.tablets[tablet], minted.nextTabletId);
    IdsUntouched(minted, post);
  }

  lemma CreateTabletKeepsIds(m: Metadata, tablet: TabletId, scope: Option<TableName>, range: KeyRange,
                             replicas: set<NodeId>)
    requires IdsFresh(m) && ApplyCreateTablet(m, tablet, scope, range, replicas).Applied?
    ensures IdsFresh(ApplyCreateTablet(m, tablet, scope, range, replicas).meta)
  {
    assert !BelowFloor(m, tablet);
    var post := ApplyCreateTablet(m, tablet, scope, range, replicas).meta;
    CreateKeepsIds(m, tablet, post.tablets[tablet], post.nextTabletId);
  }

  // --- The cutover's lineage rows -----------------------------------------------------------------------

  /** Every lineage row that names the parent, but for the two this cutover writes, is of a live tablet. */
  predicate OtherChildrenLive(m: Metadata, parent: TabletId, intent: SplitIntent) {
    forall id :: id in m.splitLineage && m.splitLineage[id].parent == parent
                 && id != intent.left && id != intent.right ==>
      id in m.tablets && id != parent
  }

  /**
   Mirroring a cutover reads the tablet of every lineage row that names the parent; each of
   them is there exactly when every such row from before is of a live tablet.
   */
  lemma CutoverReadsLiveTabletsIff(rules: Rules, m: Metadata, parent: TabletId, epoch: nat, wallMs: nat)
    requires ApplyCutoverSplit(rules, m, parent, epoch, wallMs).Applied?
    ensures var post := ApplyCutoverSplit(rules, m, parent, epoch, wallMs).meta;
            (forall child :: child in ChildrenOf(post, parent) ==> child in post.tablets)
            <==> OtherChildrenLive(m, parent, m.tablets[parent].split.value)
  {
    var post := ApplyCutoverSplit(rules, m, parent, epoch, wallMs).meta;
    var intent := m.tablets[parent].split.value;
    forall id | id in m.splitLineage && m.splitLineage[id].parent == parent && id != intent.left && id != intent.right
      ensures id in ChildrenOf(post, parent) && (id in post.tablets <==> id in m.tablets && id != parent)
    {
    }
  }

  /**
   A lineage row left by an earlier tablet of the same id: the cutover applies, and its mirror has no tablet
   to read.
   */
  lemma ReusedParentIdBreaksTheMirror(rules: Rules)
    ensures var intent := SplitIntent("m", 2, {}, 3, {});
            var m := Default().(tablets := map[1 := Tablet(None, KeyRange("", None), {}, 1, Splitting, Some(intent))],
                                splitLineage := map[9 := SplitLineage(1, None, 0)]);
            var o := ApplyCutoverSplit(rules, m, 1, 1, 0);
            o.Applied? && 9 in ChildrenOf(o.meta, 1) && 9 !in o.meta.tablets
  {
    assert Less("", "m");
  }

  /** Where ids are never reused, the children are exactly the two of this split, and live. */
  lemma FreshCutoverHasTwoChildren(rules: Rules, m: Metadata, parent: TabletId, epoch: nat, wallMs: nat)
    requires IdsFresh(m) && ApplyCutoverSplit(rules, m, parent, epoch, wallMs).Applied?
    ensures var post := ApplyCutoverSplit(rules, m, parent, epoch, wallMs).meta;
            var intent := m.tablets[parent].split.value;
            ChildrenOf(post, parent) == {intent.left, intent.right} && intent.left in post.tablets
              && intent.right in post.tablets
  {
    var post := ApplyCutoverSplit(rules, m, parent, epoch, wallMs).meta;
    var intent := m.tablets[parent].split.value;
    assert Reserved(m, parent, intent.left) && Reserved(m, parent, intent.right);
    forall id | id in m.splitLineage
      ensures m.splitLineage[id].parent != parent
    {
      assert ParentRetired(m, m.splitLineage[id].parent);
    }
    assert forall id :: id in ChildrenOf(post, parent) <==> id == intent.left || id == intent.right;
  }

  // --- Deriving the writes -------------------------------------------------------------------------------------

  /** The writes made so far are the rows of these keys. */
  ghost predicate Mirrors(writes: seq<KeyWrite>, m: Metadata, keys: set<Key>) {
    SetOf(writes) == RowWrites(m, keys)
  }

  lemma PushMirrors(writes: seq<KeyWrite>, m: Metadata, keys: set<Key>, w: KeyWrite, key: Key)
    requires Mirrors(writes, m, keys) && w == RowWrite(m, key)
    ensures Mirrors(writes + [w], m, keys + {key})
  {
    assert SetOf(writes + [w]) == SetOf(writes) + {w} by {
      assert (writes + [w])[|writes|] == w;
      assert forall i :: 0 <= i < |writes| ==> (writes + [w])[i] == writes[i];
    }
    assert RowWrites(m, keys + {key}) == RowWrites(m, keys) + {RowWrite(m, key)};
  }

  lemma JoinMirrors(a: seq<KeyWrite>, b: seq<KeyWrite>, m: Metadata, keys: set<Key>, more: set<Key>)
    requires Mirrors(a, m, keys) && Mirrors(b, m, more)
    ensures Mirrors(a + b, m, keys + more)
  {
    assert SetOf(a + b) == SetOf(a) + SetOf(b) by {
      assert forall i :: 0 <= i < |a| ==> (a + b)[i] == a[i];
      assert forall i :: 0 <= i < |b| ==> (a + b)[|a| + i] == b[i];
      assert forall w :: w in SetOf(a + b) ==> w in SetOf(a) || w in SetOf(b);
    }
    assert RowWrites(m, keys + more) == RowWrites(m, keys) + RowWrites(m, more);
  }

  lemma OneMirrors(m: Metadata, w: KeyWrite, key: Key)
    requires w == RowWrite(m, key)
    ensures Mirrors([w], m, {key})
  {
    assert SetOf([w]) == {w} by {
      assert [w][0] == w;
    }
  }
}

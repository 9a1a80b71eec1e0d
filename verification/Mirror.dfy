/**
 The mirror: the key writes derived from each applied command, and that they
 carry the metadata from before the command to after it.
 */
module Mirror {
  import opened Wrappers
  import opened WalRecords
  import opened MetadataModel
  import opened KeyWrites
  import opened MetaCommands

  // --- The keys each command writes -------------------------------------------------------------------

  /** The write that states a key's row in `m`. */
  function RowWrite(m: Metadata, key: Key): KeyWrite {
    match Lookup(m, key)
    case Some(row) => Put(key, row)
    case None => Delete(key)
  }

  function ChildKeys(post: Metadata, child: TabletId): set<Key> {
    {TabletKey(child), LineageKey(child)}
    + (if child in post.policies then {PolicyKey(child)} else {})
    + (if child in post.splitPlacing then {PlacingKey(child)} else {})
  }

  function ChildrenOf(post: Metadata, parent: TabletId): set<TabletId> {
    set child | child in post.splitLineage && post.splitLineage[child].parent == parent
  }

  function CutoverKeys(post: Metadata, parent: TabletId): set<Key> {
    {TabletKey(parent), PolicyKey(parent)}
    + set child, key | child in ChildrenOf(post, parent) && key in ChildKeys(post, child) :: key
  }

  /** Backfill rows of the given tablets, and of the given index if there is one. */
  function PrunedBackfill(pre: Metadata, tablets: set<TabletId>, index: Option<string>): set<(TabletId, string)> {
    set row | row in pre.indexBackfill && row.0 in tablets && (index.None? || row.1 == index.value)
  }

  function BackfillKeys(rows: set<(TabletId, string)>): set<Key> {
    set row | row in rows :: BackfillKey(row.0, row.1)
  }

  function DroppedKeys(pre: Metadata, table: TableName): set<Key> {
    var dropped := TabletsOf(pre, table);
    (set id | id in dropped :: TabletKey(id)) + (set id | id in dropped :: PolicyKey(id))
    + BackfillKeys(PrunedBackfill(pre, dropped, None))
    + (set id | id in dropped && id in pre.splitPlacing :: PlacingKey(id))
  }

  function PrunedProgress(pre: Metadata, backup: BackupId): set<(BackupId, TabletId)> {
    set key | key in pre.backupProgress && key.0 == backup
  }

  function ProgressKeys(rows: set<(BackupId, TabletId)>): set<Key> {
    set row | row in rows :: ProgressKey(row.0, row.1)
  }

  function DeletedBackupKeys(pre: Metadata, backup: BackupId): set<Key> {
    {BackupKey(backup)} + ProgressKeys(PrunedProgress(pre, backup))
    + (if backup in pre.pitrBaseBackups then {PitrBaseKey(backup)} else {})
  }

  function RemovedMemberKeys(pre: Metadata, node: NodeId): set<Key> {
    {MemberKey(node), NodeAddrsKey(node)}
    + (if node in pre.nodeVersions then {NodeVersionKey(node)} else {})
    + (if node in pre.nodeCapacity then {NodeCapacityKey(node)} else {})
  }

  function RegisteredKeys(post: Metadata, node: NodeId): set<Key> {
    {NodeAddrsKey(node)} + (if node in post.members then {MemberKey(node)} else {})
    + (if node in post.nodeCapacity then {NodeCapacityKey(node)} else {})
  }

  function ShardKeys(rows: seq<(TabletId, nat)>): set<Key> {
    set i | 0 <= i < |rows| :: ShardKey(rows[i].0, rows[i].1)
  }

  function DroppedIndexKeys(pre: Metadata, table: TableName, index: string): set<Key> {
    {SchemaKey(table)} + BackfillKeys(PrunedBackfill(pre, TabletsOf(pre, table), Some(index)))
  }

  function VersionKeys(pre: Metadata, node: NodeId): set<Key> {
    {NodeVersionKey(node)} + (if pre.clusterVersion == 0 then {CounterKey(ClusterVersion)} else {})
  }

  function BegunBackupKeys(backup: BackupId, pitrBase: bool): set<Key> {
    {BackupKey(backup)} + if pitrBase then {PitrBaseKey(backup)} else {}
  }

  function ContinuousKeys(post: Metadata, table: TableName): set<Key> {
    {SchemaKey(table)} + if table in post.pitrGeneration then {CounterKey(PitrGeneration(table))} else {}
  }

  function ConvertedKeys(post: Metadata, table: TableName): set<Key> {
    {SchemaKey(table)} + PinnedKeys(post, table)
  }

  function PinnedKeys(post: Metadata, table: TableName): set<Key> {
    set id | id in TabletsOf(post, table) && id in post.policies :: PolicyKey(id)
  }

  /** The keys whose rows an applied command is mirrored by. */
  function DerivedKeys(pre: Metadata, post: Metadata, command: Command): set<Key> {
    match command
    case NoOp => {}
    case UpsertMember(node, _, _) => {MemberKey(node)}
    case CreateTablet(tablet, _, _, _) => {TabletKey(tablet), CounterKey(NextTabletId)}
    case CasTabletReplicas(tablet, _, _) => {TabletKey(tablet)}
    case BeginSplitInPlace(parent, _, _) => {TabletKey(parent), CounterKey(NextTabletId)}
    case CutoverSplit(parent, _, _) => CutoverKeys(post, parent)
    case SetTabletPolicy(tablet, _) => {PolicyKey(tablet)}
    case CreateTableSchema(table, _) => {SchemaKey(table)}
    case DropTableSchema(table) => {SchemaKey(table)}
    case DropTableTablets(table) => DroppedKeys(pre, table)
    case CreateTableIndex(table, _, _) => {SchemaKey(table)}
    case DropTableIndex(table, index) => DroppedIndexKeys(pre, table, index)
    case MarkIndexBackfilled(_, index, tablet) => {BackfillKey(tablet, index)}
    case MarkSplitPlacingDone(tablet, _) => {PlacingKey(tablet)}
    case RegisterNode(node, _, _, _) => RegisteredKeys(post, node)
    case RemoveMember(node) => RemovedMemberKeys(pre, node)
    case SetNodeCapacity(node, _) => {NodeCapacityKey(node)}
    case ReportNodeVersion(node, _) => VersionKeys(pre, node)
    case SealStreamShard(tablet, epoch, _) => {ShardKey(tablet, epoch)}
    case ExpireStreamShards(rows, _) => ShardKeys(rows)
    case BeginBackup(backup, _, _, _, pitrBase) => BegunBackupKeys(backup, pitrBase)
    case RecordBackupTabletComplete(backup, tablet, _) => {ProgressKey(backup, tablet)}
    case CompleteBackup(backup) => {BackupKey(backup)}
    case FailBackup(backup, _) => {BackupKey(backup)}
    case DeleteBackup(backup) => DeletedBackupKeys(pre, backup)
    case UpdateContinuousBackups(table, _, _) => ContinuousKeys(post, table)
    case BeginRestore(restore, row, _) => {TabletKey(row.tablet), CounterKey(NextTabletId), RestoreKey(restore)}
    case BeginImport(job, row, _) => {TabletKey(row.tablet), CounterKey(NextTabletId), ImportKey(job)}
    case ConvertTableToGlobal(table, _) => ConvertedKeys(post, table)
  }

  function RowWrites(m: Metadata, keys: set<Key>): set<KeyWrite> {
    set key | key in keys :: RowWrite(m, key)
  }

  function Derived(pre: Metadata, post: Metadata, command: Command): set<KeyWrite> {
    RowWrites(post, DerivedKeys(pre, post, command))
  }

  // --- Every changed row is written ----------------------------------------------------------------------

  /** Every key whose row differs between the two is among `keys`. */
  ghost predicate Covers(pre: Metadata, post: Metadata, keys: set<Key>) {
    forall key :: key !in keys ==> Lookup(pre, key) == Lookup(post, key)
  }

  lemma PutCovers(m: Metadata, key: Key, row: Row)
    requires Typed(key, row) && key != FORMAT_VERSION_KEY
    ensures Covers(m, ApplyPut(m, key, row), {key})
  {
    forall other | other !in {key}
      ensures Lookup(m, other) == Lookup(ApplyPut(m, key, row), other)
    {
      WriteSetsItsKey(m, Put(key, row), other);
    }
  }

  lemma DeleteCovers(m: Metadata, key: Key)
    requires !key.CounterKey?
    ensures Covers(m, ApplyDelete(m, key), {key})
  {
    forall other | other !in {key}
      ensures Lookup(m, other) == Lookup(ApplyDelete(m, key), other)
    {
      WriteSetsItsKey(m, Delete(key), other);
    }
  }

  lemma TwoPutsCover(m: Metadata, key: Key, row: Row, key': Key, row': Row)
    requires Typed(key, row) && Typed(key', row') && key != FORMAT_VERSION_KEY && key' != FORMAT_VERSION_KEY
    ensures Covers(m, ApplyPut(ApplyPut(m, key, row), key', row'), {key, key'})
  {
    PutCovers(m, key, row);
    PutCovers(ApplyPut(m, key, row), key', row');
  }

  lemma ThreePutsCover(m: Metadata, a: Key, rowA: Row, b: Key, rowB: Row, c: Key, rowC: Row)
    requires Typed(a, rowA) && Typed(b, rowB) && Typed(c, rowC)
    requires a != FORMAT_VERSION_KEY && b != FORMAT_VERSION_KEY && c != FORMAT_VERSION_KEY
    ensures Covers(m, ApplyPut(ApplyPut(ApplyPut(m, a, rowA), b, rowB), c, rowC), {a, b, c})
  {
    TwoPutsCover(m, a, rowA, b, rowB);
    PutCovers(ApplyPut(ApplyPut(m, a, rowA), b, rowB), c, rowC);
  }

  // --- Nodes

  lemma UpsertMemberCovers(m: Metadata, node: NodeId, labels: Labels, status: NodeStatus)
    ensures Covers(m, After(ApplyUpsertMember(m, node, labels, status), m), {MemberKey(node)})
  {
    var post := After(ApplyUpsertMember(m, node, labels, status), m);
    PutCovers(m, MemberKey(node), MemberRow(post.members[node]));
  }

  /** A map with at most `node`'s entry replaced. */
  predicate OnlyInserts<V(==)>(a: map<NodeId, V>, b: map<NodeId, V>, node: NodeId) {
    b == a || (node in b && b == a[node := b[node]])
  }

  lemma MembersRow(m: Metadata, members: map<NodeId, Member>, node: NodeId, key: Key)
    requires OnlyInserts(m.members, members, node) && key != MemberKey(node)
    ensures Lookup(m.(members := members), key) == Lookup(m, key)
  {
    if members != m.members {
      WriteSetsItsKey(m, Put(MemberKey(node), MemberRow(members[node])), key);
    }
  }

  lemma CapacityRowStays(m: Metadata, sizes: map<NodeId, Capacity>, node: NodeId, key: Key)
    requires OnlyInserts(m.nodeCapacity, sizes, node) && key != NodeCapacityKey(node)
    ensures Lookup(m.(nodeCapacity := sizes), key) == Lookup(m, key)
  {
    if sizes != m.nodeCapacity {
      WriteSetsItsKey(m, Put(NodeCapacityKey(node), CapacityRow(sizes[node])), key);
    }
  }

  lemma AbsentStays(m: Metadata, node: NodeId, addrs: NodeAddrs, labels: Labels, capacity: Option<Capacity>)
    ensures var post := Registered(m, node, addrs, labels, capacity);
            && OnlyInserts(m.members, post.members, node) && OnlyInserts(m.nodeCapacity, post.nodeCapacity, node)
            && (node !in post.members ==> node !in m.members)
            && (node !in post.nodeCapacity ==> node !in m.nodeCapacity)
  {
  }

  lemma RegisteredRow(m: Metadata, node: NodeId, addrs: NodeAddrs, labels: Labels, capacity: Option<Capacity>, key: Key)
    requires key != NodeAddrsKey(node) && key != MemberKey(node) && key != NodeCapacityKey(node)
    ensures Lookup(Registered(m, node, addrs, labels, capacity), key) == Lookup(m, key)
  {
    var post := Registered(m, node, addrs, labels, capacity);
    AbsentStays(m, node, addrs, labels, capacity);
    WriteSetsItsKey(m, Put(NodeAddrsKey(node), AddrsRow(addrs)), key);
    var book := ApplyPut(m, NodeAddrsKey(node), AddrsRow(addrs));
    MembersRow(book, post.members, node, key);
    CapacityRowStays(book.(members := post.members), post.nodeCapacity, node, key);
  }

  lemma RegisterNodeCovers(m: Metadata, node: NodeId, addrs: NodeAddrs, labels: Labels, capacity: Option<Capacity>)
    ensures var post := After(ApplyRegisterNode(m, node, addrs, labels, capacity), m);
            Covers(m, post, RegisteredKeys(post, node))
  {
    var o := ApplyRegisterNode(m, node, addrs, labels, capacity);
    if o.Applied? {
      var post := o.meta;
      AbsentStays(m, node, addrs, labels, capacity);
      forall key | key !in RegisteredKeys(post, node)
        ensures Lookup(m, key) == Lookup(post, key)
      {
        if key != MemberKey(node) && key != NodeCapacityKey(node) {
          RegisteredRow(m, node, addrs, labels, capacity, key);
        }
      }
    }
  }

  /** Every row of a removed node is gone, and no other row changed. */
  lemma RemovedRow(m: Metadata, node: NodeId, key: Key)
    ensures Lookup(WithoutNode(m, node), key)
            == if key == MemberKey(node) || key == NodeAddrsKey(node) || key == NodeVersionKey(node)
                  || key == NodeCapacityKey(node)
               then None else Lookup(m, key)
  {
    var a := ApplyDelete(m, MemberKey(node));
    var b := ApplyDelete(a, NodeAddrsKey(node));
    var c := ApplyDelete(b, NodeVersionKey(node));
    WriteSetsItsKey(m, Delete(MemberKey(node)), key);
    WriteSetsItsKey(a, Delete(NodeAddrsKey(node)), key);
    WriteSetsItsKey(b, Delete(NodeVersionKey(node)), key);
    WriteSetsItsKey(c, Delete(NodeCapacityKey(node)), key);
    assert WithoutNode(m, node) == ApplyDelete(c, NodeCapacityKey(node));
  }

  lemma RemoveMemberCovers(m: Metadata, node: NodeId)
    ensures Covers(m, After(ApplyRemoveMember(m, node), m), RemovedMemberKeys(m, node))
  {
    if ApplyRemoveMember(m, node).Applied? {
      forall key | key !in RemovedMemberKeys(m, node)
        ensures Lookup(m, key) == Lookup(WithoutNode(m, node), key)
      {
        RemovedRow(m, node, key);
      }
    }
  }

  lemma SetNodeCapacityCovers(m: Metadata, node: NodeId, size: Capacity)
    ensures Covers(m, After(ApplySetNodeCapacity(m, node, size), m), {NodeCapacityKey(node)})
  {
    PutCovers(m, NodeCapacityKey(node), CapacityRow(size));
    DeleteCovers(m, NodeCapacityKey(node));
  }

  lemma ReportNodeVersionCovers(m: Metadata, node: NodeId, version: NodeVersion)
    ensures Covers(m, After(ApplyReportNodeVersion(m, node, version), m), VersionKeys(m, node))
  {
    PutCovers(m, NodeVersionKey(node), VersionRow(version));
    TwoPutsCover(m, NodeVersionKey(node), VersionRow(version), CounterKey(ClusterVersion), Count(1));
  }

  // --- Tablets

  lemma CreateTabletCovers(m: Metadata, tablet: TabletId, scope: Option<TableName>, range: KeyRange,
                           replicas: set<NodeId>)
    ensures Covers(m, After(ApplyCreateTablet(m, tablet, scope, range, replicas), m),
                   {TabletKey(tablet), CounterKey(NextTabletId)})
  {
    var o := ApplyCreateTablet(m, tablet, scope, range, replicas);
    if o.Applied? {
      TwoPutsCover(m, TabletKey(tablet), TabletRow(o.meta.tablets[tablet]), CounterKey(NextTabletId),
                   Count(o.meta.nextTabletId));
    }
  }

  lemma CasTabletReplicasCovers(m: Metadata, tablet: TabletId, epoch: nat, replicas: set<NodeId>)
    ensures Covers(m, After(ApplyCasTabletReplicas(m, tablet, epoch, replicas), m), {TabletKey(tablet)})
  {
    var o := ApplyCasTabletReplicas(m, tablet, epoch, replicas);
    if o.Applied? {
      PutCovers(m, TabletKey(tablet), TabletRow(o.meta.tablets[tablet]));
    }
  }

  lemma BeginSplitCovers(m: Metadata, parent: TabletId, epoch: nat, intent: SplitIntent)
    ensures Covers(m, After(ApplyBeginSplit(m, parent, epoch, intent), m),
                   {TabletKey(parent), CounterKey(NextTabletId)})
  {
    var o := ApplyBeginSplit(m, parent, epoch, intent);
    if o.Applied? {
      TwoPutsCover(m, TabletKey(parent), TabletRow(o.meta.tablets[parent]), CounterKey(NextTabletId),
                   Count(o.meta.nextTabletId));
    }
  }

  lemma SetTabletPolicyCovers(m: Metadata, tablet: TabletId, policy: Option<Policy>)
    ensures Covers(m, After(ApplySetTabletPolicy(m, tablet, policy), m), {PolicyKey(tablet)})
  {
    if policy.Some? {
      PutCovers(m, PolicyKey(tablet), PolicyRow(policy.value));
    } else {
      DeleteCovers(m, PolicyKey(tablet));
    }
  }

  lemma MarkSplitPlacingDoneCovers(m: Metadata, tablet: TabletId, epoch: nat)
    ensures Covers(m, After(ApplyMarkSplitPlacingDone(m, tablet, epoch), m), {PlacingKey(tablet)})
  {
    var o := ApplyMarkSplitPlacingDone(m, tablet, epoch);
    if o.Applied? {
      PutCovers(m, PlacingKey(tablet), PlacingRow(o.meta.splitPlacing[tablet]));
    }
  }

  /** The cutover changes rows of the parent and of the two children only. */
  lemma CutOverRow(rules: Rules, m: Metadata, parent: TabletId, t: Tablet, intent: SplitIntent,
                   halves: (KeyRange, KeyRange), wallMs: nat, key: Key)
    requires key !in {TabletKey(parent), PolicyKey(parent)}
    requires key !in ChildKeys(CutOver(rules, m, parent, t, intent, halves, wallMs), intent.left)
    requires key !in ChildKeys(CutOver(rules, m, parent, t, intent, halves, wallMs), intent.right)
    ensures Lookup(m, key) == Lookup(CutOver(rules, m, parent, t, intent, halves, wallMs), key)
  {
  }

  lemma CutoverCovers(rules: Rules, m: Metadata, parent: TabletId, epoch: nat, wallMs: nat)
    requires ApplyCutoverSplit(rules, m, parent, epoch, wallMs).Applied?
    ensures var post := ApplyCutoverSplit(rules, m, parent, epoch, wallMs).meta;
            Covers(m, post, CutoverKeys(post, parent))
  {
    var post := ApplyCutoverSplit(rules, m, parent, epoch, wallMs).meta;
    var t := m.tablets[parent];
    var intent, halves := t.split.value, SplitAt(t.range, t.split.value.key).value;
    assert intent.left in ChildrenOf(post, parent) && intent.right in ChildrenOf(post, parent);
    forall key | key !in CutoverKeys(post, parent)
      ensures Lookup(m, key) == Lookup(post, key)
    {
      CutOverRow(rules, m, parent, t, intent, halves, wallMs, key);
    }
  }

  // --- Tables

  lemma SchemaCovers(m: Metadata, table: TableName, schema: TableSchema)
    ensures Covers(m, m.(schemas := m.schemas[table := schema]), {SchemaKey(table)})
    ensures Covers(m, m.(schemas := m.schemas - {table}), {SchemaKey(table)})
  {
    PutCovers(m, SchemaKey(table), SchemaRow(schema));
    DeleteCovers(m, SchemaKey(table));
  }

  lemma CreateTableSchemaCovers(rules: Rules, m: Metadata, table: TableName, schema: TableSchema)
    ensures Covers(m, After(ApplyCreateTableSchema(rules, m, table, schema), m), {SchemaKey(table)})
  {
    SchemaCovers(m, table, schema);
  }

  lemma DropTableSchemaCovers(m: Metadata, table: TableName)
    ensures Covers(m, After(ApplyDropTableSchema(m, table), m), {SchemaKey(table)})
  {
    DeleteCovers(m, SchemaKey(table));
  }

  lemma CreateTableIndexCovers(rules: Rules, m: Metadata, table: TableName, index: string, def: IndexDef)
    ensures Covers(m, After(ApplyCreateTableIndex(rules, m, table, index, def), m), {SchemaKey(table)})
  {
    var o := ApplyCreateTableIndex(rules, m, table, index, def);
    if o.Applied? {
      SchemaCovers(m, table, o.meta.schemas[table]);
    }
  }

  lemma DropTableTabletsCovers(m: Metadata, table: TableName)
    ensures Covers(m, After(ApplyDropTableTablets(m, table), m), DroppedKeys(m, table))
  {
    var post := After(ApplyDropTableTablets(m, table), m);
    forall key | key !in DroppedKeys(m, table)
      ensures Lookup(m, key) == Lookup(post, key)
    {
      DroppedRow(m, table, key);
    }
  }

  lemma InBackfillKeys(rows: set<(TabletId, string)>, id: TabletId, index: string)
    ensures BackfillKey(id, index) in BackfillKeys(rows) <==> (id, index) in rows
  {
    if (id, index) in rows {
      assert BackfillKey((id, index).0, (id, index).1) in BackfillKeys(rows);
    }
  }

  lemma DroppedRow(m: Metadata, table: TableName, key: Key)
    requires key !in DroppedKeys(m, table)
    ensures Lookup(m, key) == Lookup(After(ApplyDropTableTablets(m, table), m), key)
  {
    match key
    case TabletKey(id) =>
    case PolicyKey(id) =>
    case PlacingKey(id) =>
    case BackfillKey(id, index) => InBackfillKeys(PrunedBackfill(m, TabletsOf(m, table), None), id, index);
    case _ =>
  }

  lemma DroppedIndexRow(m: Metadata, table: TableName, index: string, key: Key)
    requires key !in DroppedIndexKeys(m, table, index)
    ensures Lookup(m, key) == Lookup(After(ApplyDropTableIndex(m, table, index), m), key)
  {
    match key
    case SchemaKey(_) =>
    case BackfillKey(id, name) => InBackfillKeys(PrunedBackfill(m, TabletsOf(m, table), Some(index)), id, name);
    case _ =>
  }

  lemma DropTableIndexCovers(m: Metadata, table: TableName, index: string)
    ensures Covers(m, After(ApplyDropTableIndex(m, table, index), m), DroppedIndexKeys(m, table, index))
  {
    forall key | key !in DroppedIndexKeys(m, table, index)
      ensures Lookup(m, key) == Lookup(After(ApplyDropTableIndex(m, table, index), m), key)
    {
      DroppedIndexRow(m, table, index, key);
    }
  }

  lemma MarkIndexBackfilledCovers(m: Metadata, table: TableName, index: string, tablet: TabletId)
    ensures Covers(m, After(ApplyMarkIndexBackfilled(m, table, index, tablet), m), {BackfillKey(tablet, index)})
  {
    PutCovers(m, BackfillKey(tablet, index), Present);
  }

  lemma UpdateContinuousBackupsCovers(m: Metadata, table: TableName, enabled: bool, wallMs: nat)
    ensures var post := After(ApplyUpdateContinuousBackups(m, table, enabled, wallMs), m);
            Covers(m, post, ContinuousKeys(post, table))
  {
    var o := ApplyUpdateContinuousBackups(m, table, enabled, wallMs);
    if o.Applied? {
      SchemaCovers(m, table, o.meta.schemas[table]);
      if enabled {
        TwoPutsCover(m, SchemaKey(table), SchemaRow(o.meta.schemas[table]),
                     CounterKey(PitrGeneration(table)), Count(o.meta.pitrGeneration[table]));
      }
    }
  }

  lemma InPinnedKeys(post: Metadata, table: TableName, id: TabletId)
    ensures PolicyKey(id) in PinnedKeys(post, table) <==> id in TabletsOf(post, table) && id in post.policies
  {
  }

  lemma PoliciesRow(m: Metadata, policies: map<TabletId, Policy>, key: Key)
    requires !key.PolicyKey?
    ensures Lookup(m.(policies := policies), key) == Lookup(m, key)
  {
  }

  lemma PinnedRow(m: Metadata, tablets: set<TabletId>, policy: Policy, key: Key)
    requires key.PolicyKey? ==> key.id !in tablets
    ensures Lookup(m.(policies := Pinned(m.policies, tablets, policy)), key) == Lookup(m, key)
  {
    if !key.PolicyKey? {
      PoliciesRow(m, Pinned(m.policies, tablets, policy), key);
    }
  }

  lemma ConvertTableToGlobalCovers(rules: Rules, m: Metadata, table: TableName, spec: GlobalSpec)
    requires ApplyConvertTableToGlobal(rules, m, table, spec).Applied?
    ensures var post := ApplyConvertTableToGlobal(rules, m, table, spec).meta;
            Covers(m, post, ConvertedKeys(post, table))
  {
    var post := ApplyConvertTableToGlobal(rules, m, table, spec).meta;
    var tablets, policy := TabletsOf(m, table), rules.pinned(table, spec.regions);
    var pinned := m.(policies := Pinned(m.policies, tablets, policy));
    assert TabletsOf(post, table) == tablets;
    forall key | key !in ConvertedKeys(post, table)
      ensures Lookup(m, key) == Lookup(post, key)
    {
      if key.PolicyKey? {
        InPinnedKeys(post, table, key.id);
      }
      PinnedRow(m, tablets, policy, key);
      WriteSetsItsKey(pinned, Put(SchemaKey(table), SchemaRow(post.schemas[table])), key);
    }
  }

  // --- Stream shards

  lemma SealStreamShardCovers(m: Metadata, tablet: TabletId, epoch: nat, shard: StreamShard)
    ensures Covers(m, After(ApplySealStreamShard(m, tablet, epoch, shard), m), {ShardKey(tablet, epoch)})
  {
    var o := ApplySealStreamShard(m, tablet, epoch, shard);
    if o.Applied? {
      PutCovers(m, ShardKey(tablet, epoch), ShardRow(o.meta.streamShards[(tablet, epoch)]));
    }
  }

  lemma InShardKeys(rows: seq<(TabletId, nat)>, id: TabletId, epoch: nat)
    ensures ShardKey(id, epoch) in ShardKeys(rows) <==> (id, epoch) in rows
  {
    if (id, epoch) in rows {
      var i :| 0 <= i < |rows| && rows[i] == (id, epoch);
      assert ShardKey(rows[i].0, rows[i].1) in ShardKeys(rows);
    }
  }

  lemma ExpiredRow(m: Metadata, rows: seq<(TabletId, nat)>, remove: bool, key: Key)
    requires key.ShardKey? ==> (key.id, key.epoch) !in rows
    ensures Lookup(m, key) == Lookup(After(ApplyExpireStreamShards(m, rows, remove), m), key)
  {
  }

  lemma ExpireStreamShardsCovers(m: Metadata, rows: seq<(TabletId, nat)>, remove: bool)
    ensures Covers(m, After(ApplyExpireStreamShards(m, rows, remove), m), ShardKeys(rows))
  {
    forall key | key !in ShardKeys(rows)
      ensures Lookup(m, key) == Lookup(After(ApplyExpireStreamShards(m, rows, remove), m), key)
    {
      if key.ShardKey? {
        InShardKeys(rows, key.id, key.epoch);
      }
      ExpiredRow(m, rows, remove, key);
    }
  }

  // --- Backups

  lemma BackupCovers(m: Metadata, backup: BackupId, row: Backup)
    ensures Covers(m, m.(backups := m.backups[backup := row]), {BackupKey(backup)})
  {
    PutCovers(m, BackupKey(backup), BackupRow(row));
  }

  lemma BeginBackupCovers(m: Metadata, backup: BackupId, table: TableName, wallMs: nat, name: string, pitrBase: bool)
    ensures Covers(m, After(ApplyBeginBackup(m, backup, table, wallMs, name, pitrBase), m),
                   BegunBackupKeys(backup, pitrBase))
  {
    var o := ApplyBeginBackup(m, backup, table, wallMs, name, pitrBase);
    if o.Applied? {
      PutCovers(m, BackupKey(backup), BackupRow(o.meta.backups[backup]));
      TwoPutsCover(m, BackupKey(backup), BackupRow(o.meta.backups[backup]), PitrBaseKey(backup), Present);
    }
  }

  lemma RecordBackupTabletCompleteCovers(rules: Rules, m: Metadata, backup: BackupId, tablet: TabletId,
                                         progress: BackupProgress)
    ensures Covers(m, After(ApplyRecordBackupTabletComplete(rules, m, backup, tablet, progress), m),
                   {ProgressKey(backup, tablet)})
  {
    PutCovers(m, ProgressKey(backup, tablet), ProgressRow(progress));
  }

  lemma CompleteBackupCovers(rules: Rules, m: Metadata, backup: BackupId)
    ensures Covers(m, After(ApplyCompleteBackup(rules, m, backup), m), {BackupKey(backup)})
  {
    var o := ApplyCompleteBackup(rules, m, backup);
    if o.Applied? {
      BackupCovers(m, backup, o.meta.backups[backup]);
    }
  }

  lemma FailBackupCovers(m: Metadata, backup: BackupId, reason: string)
    ensures Covers(m, After(ApplyFailBackup(m, backup, reason), m), {BackupKey(backup)})
  {
    var o := ApplyFailBackup(m, backup, reason);
    if o.Applied? {
      BackupCovers(m, backup, o.meta.backups[backup]);
    }
  }

  lemma DeleteBackupCovers(m: Metadata, backup: BackupId)
    ensures Covers(m, After(ApplyDeleteBackup(m, backup), m), DeletedBackupKeys(m, backup))
  {
    var post := After(ApplyDeleteBackup(m, backup), m);
    forall key | key !in DeletedBackupKeys(m, backup)
      ensures Lookup(m, key) == Lookup(post, key)
    {
      DeletedBackupRow(m, backup, key);
    }
  }

  lemma InProgressKeys(rows: set<(BackupId, TabletId)>, backup: BackupId, id: TabletId)
    ensures ProgressKey(backup, id) in ProgressKeys(rows) <==> (backup, id) in rows
  {
    if (backup, id) in rows {
      assert ProgressKey((backup, id).0, (backup, id).1) in ProgressKeys(rows);
    }
  }

  lemma DeletedBackupRow(m: Metadata, backup: BackupId, key: Key)
    requires key !in DeletedBackupKeys(m, backup)
    ensures Lookup(m, key) == Lookup(After(ApplyDeleteBackup(m, backup), m), key)
  {
    match key
    case BackupKey(_) =>
    case PitrBaseKey(_) =>
    case ProgressKey(b, id) => InProgressKeys(PrunedProgress(m, backup), b, id);
    case _ =>
  }

  // --- Restores and imports

  lemma BeginRestoreCovers(m: Metadata, restore: string, row: Restore, replicas: set<NodeId>)
    ensures Covers(m, After(ApplyBeginRestore(m, restore, row, replicas), m),
                   {TabletKey(row.tablet), CounterKey(NextTabletId), RestoreKey(restore)})
  {
    var o := ApplyBeginRestore(m, restore, row, replicas);
    if o.Applied? {
      ThreePutsCover(m, TabletKey(row.tablet), TabletRow(o.meta.tablets[row.tablet]),
                     CounterKey(NextTabletId), Count(o.meta.nextTabletId),
                     RestoreKey(restore), RestoreRow(o.meta.restores[restore]));
    }
  }

  lemma BeginImportCovers(m: Metadata, job: string, row: ImportJob, replicas: set<NodeId>)
    ensures Covers(m, After(ApplyBeginImport(m, job, row, replicas), m),
                   {TabletKey(row.tablet), CounterKey(NextTabletId), ImportKey(job)})
  {
    var o := ApplyBeginImport(m, job, row, replicas);
    if o.Applied? {
      ThreePutsCover(m, TabletKey(row.tablet), TabletRow(o.meta.tablets[row.tablet]),
                     CounterKey(NextTabletId), Count(o.meta.nextTabletId),
                     ImportKey(job), ImportRow(o.meta.imports[job]));
    }
  }

  // --- The derived writes carry the command ---------------------------------------------------------------

  /** The only counters among the keys are ones that have a row. */
  predicate CountersKept(post: Metadata, keys: set<Key>) {
    forall key :: key in keys && key.CounterKey? ==>
      key.counter.NextTabletId? || key.counter.ClusterVersion?
      || (key.counter.PitrGeneration? && key.counter.table in post.pitrGeneration)
  }

  predicate MemberCommand(command: Command) {
    command.UpsertMember? || command.RegisterNode? || command.RemoveMember?
  }

  predicate NodeFactCommand(command: Command) {
    command.SetNodeCapacity? || command.ReportNodeVersion?
  }

  predicate TabletCommand(command: Command) {
    command.CreateTablet? || command.CasTabletReplicas? || command.BeginSplitInPlace?
  }

  predicate PlacementCommand(command: Command) {
    command.CutoverSplit? || command.SetTabletPolicy? || command.MarkSplitPlacingDone?
  }

  predicate SchemaCommand(command: Command) {
    command.CreateTableSchema? || command.DropTableSchema? || command.UpdateContinuousBackups?
  }

  predicate IndexCommand(command: Command) {
    command.DropTableTablets? || command.CreateTableIndex? || command.DropTableIndex? || command.MarkIndexBackfilled?
  }

  predicate ShardCommand(command: Command) {
    command.SealStreamShard? || command.ExpireStreamShards?
  }

  predicate BackupTaskCommand(command: Command) {
    command.RecordBackupTabletComplete? || command.CompleteBackup? || command.FailBackup?
  }

  predicate BackupCommand(command: Command) {
    command.BeginBackup? || command.DeleteBackup?
  }

  predicate JobCommand(command: Command) {
    command.BeginRestore? || command.BeginImport?
  }

  lemma NodeCounters(pre: Metadata, post: Metadata, command: Command)
    requires MemberCommand(command) || NodeFactCommand(command)
    ensures CountersKept(post, DerivedKeys(pre, post, command))
  {
  }

  lemma TabletCounters(pre: Metadata, post: Metadata, command: Command)
    requires TabletCommand(command) || PlacementCommand(command) || JobCommand(command)
    ensures CountersKept(post, DerivedKeys(pre, post, command))
  {
  }

  lemma TableCounters(pre: Metadata, post: Metadata, command: Command)
    requires SchemaCommand(command) || IndexCommand(command) || command.ConvertTableToGlobal?
    ensures CountersKept(post, DerivedKeys(pre, post, command))
  {
  }

  lemma OtherCounters(pre: Metadata, post: Metadata, command: Command)
    requires ShardCommand(command) || BackupTaskCommand(command) || BackupCommand(command) || command.NoOp?
    ensures CountersKept(post, DerivedKeys(pre, post, command))
  {
  }

  lemma DerivedCounters(pre: Metadata, post: Metadata, command: Command)
    ensures CountersKept(post, DerivedKeys(pre, post, command))
  {
    if MemberCommand(command) || NodeFactCommand(command) {
      NodeCounters(pre, post, command);
    } else if TabletCommand(command) || PlacementCommand(command) || JobCommand(command) {
      TabletCounters(pre, post, command);
    } else if SchemaCommand(command) || IndexCommand(command) || command.ConvertTableToGlobal? {
      TableCounters(pre, post, command);
    } else {
      OtherCounters(pre, post, command);
    }
  }

  lemma MemberCommandCovers(rules: Rules, m: Metadata, command: Command, post: Metadata)
    requires MemberCommand(command) && ApplyCommand(rules, m, command) == Applied(post)
    ensures Covers(m, post, DerivedKeys(m, post, command))
  {
    match command
    case UpsertMember(node, labels, status) => UpsertMemberCovers(m, node, labels, status);
    case RegisterNode(node, addrs, labels, capacity) => RegisterNodeCovers(m, node, addrs, labels, capacity);
    case RemoveMember(node) => RemoveMemberCovers(m, node);
  }

  lemma NodeFactCommandCovers(rules: Rules, m: Metadata, command: Command, post: Metadata)
    requires NodeFactCommand(command) && ApplyCommand(rules, m, command) == Applied(post)
    ensures Covers(m, post, DerivedKeys(m, post, command))
  {
    match command
    case SetNodeCapacity(node, size) => SetNodeCapacityCovers(m, node, size);
    case ReportNodeVersion(node, version) => ReportNodeVersionCovers(m, node, version);
  }

  lemma TabletCommandCovers(rules: Rules, m: Metadata, command: Command, post: Metadata)
    requires TabletCommand(command) && ApplyCommand(rules, m, command) == Applied(post)
    ensures Covers(m, post, DerivedKeys(m, post, command))
  {
    match command
    case CreateTablet(tablet, scope, range, replicas) => CreateTabletCovers(m, tablet, scope, range, replicas);
    case CasTabletReplicas(tablet, epoch, replicas) => CasTabletReplicasCovers(m, tablet, epoch, replicas);
    case BeginSplitInPlace(parent, epoch, intent) => BeginSplitCovers(m, parent, epoch, intent);
  }

  lemma PlacementCommandCovers(rules: Rules, m: Metadata, command: Command, post: Metadata)
    requires PlacementCommand(command) && ApplyCommand(rules, m, command) == Applied(post)
    ensures Covers(m, post, DerivedKeys(m, post, command))
  {
    match command
    case CutoverSplit(parent, epoch, wallMs) => CutoverCovers(rules, m, parent, epoch, wallMs);
    case SetTabletPolicy(tablet, policy) => SetTabletPolicyCovers(m, tablet, policy);
    case MarkSplitPlacingDone(tablet, epoch) => MarkSplitPlacingDoneCovers(m, tablet, epoch);
  }

  lemma ContinuousBackupsCommandCovers(rules: Rules, m: Metadata, command: Command, post: Metadata)
    requires command.UpdateContinuousBackups? && ApplyCommand(rules, m, command) == Applied(post)
    ensures Covers(m, post, DerivedKeys(m, post, command))
  {
    UpdateContinuousBackupsCovers(m, command.table, command.enabled, command.wallMs);
  }

  lemma SchemaCommandCovers(rules: Rules, m: Metadata, command: Command, post: Metadata)
    requires SchemaCommand(command) && ApplyCommand(rules, m, command) == Applied(post)
    ensures Covers(m, post, DerivedKeys(m, post, command))
  {
    match command
    case CreateTableSchema(table, schema) => CreateTableSchemaCovers(rules, m, table, schema);
    case DropTableSchema(table) => DropTableSchemaCovers(m, table);
    case UpdateContinuousBackups(_, _, _) => ContinuousBackupsCommandCovers(rules, m, command, post);
  }

  lemma IndexCommandCovers(rules: Rules, m: Metadata, command: Command, post: Metadata)
    requires IndexCommand(command) && ApplyCommand(rules, m, command) == Applied(post)
    ensures Covers(m, post, DerivedKeys(m, post, command))
  {
    match command
    case DropTableTablets(table) => DropTableTabletsCovers(m, table);
    case CreateTableIndex(table, index, def) => CreateTableIndexCovers(rules, m, table, index, def);
    case DropTableIndex(table, index) => DropTableIndexCovers(m, table, index);
    case MarkIndexBackfilled(table, index, tablet) => MarkIndexBackfilledCovers(m, table, index, tablet);
  }

  lemma ShardCommandCovers(rules: Rules, m: Metadata, command: Command, post: Metadata)
    requires ShardCommand(command) && ApplyCommand(rules, m, command) == Applied(post)
    ensures Covers(m, post, DerivedKeys(m, post, command))
  {
    match command
    case SealStreamShard(tablet, epoch, shard) => SealStreamShardCovers(m, tablet, epoch, shard);
    case ExpireStreamShards(rows, remove) => ExpireStreamShardsCovers(m, rows, remove);
  }

  lemma BackupTaskCommandCovers(rules: Rules, m: Metadata, command: Command, post: Metadata)
    requires BackupTaskCommand(command) && ApplyCommand(rules, m, command) == Applied(post)
    ensures Covers(m, post, DerivedKeys(m, post, command))
  {
    match command
    case RecordBackupTabletComplete(backup, tablet, progress) =>
      RecordBackupTabletCompleteCovers(rules, m, backup, tablet, progress);
    case CompleteBackup(backup) => CompleteBackupCovers(rules, m, backup);
    case FailBackup(backup, reason) => FailBackupCovers(m, backup, reason);
  }

  lemma BackupCommandCovers(rules: Rules, m: Metadata, command: Command, post: Metadata)
    requires BackupCommand(command) && ApplyCommand(rules, m, command) == Applied(post)
    ensures Covers(m, post, DerivedKeys(m, post, command))
  {
    match command
    case BeginBackup(backup, table, wallMs, name, pitrBase) =>
      BeginBackupCovers(m, backup, table, wallMs, name, pitrBase);
    case DeleteBackup(backup) => DeleteBackupCovers(m, backup);
  }

  lemma JobCommandCovers(rules: Rules, m: Metadata, command: Command, post: Metadata)
    requires JobCommand(command) && ApplyCommand(rules, m, command) == Applied(post)
    ensures Covers(m, post, DerivedKeys(m, post, command))
  {
    match command
    case BeginRestore(restore, row, replicas) => BeginRestoreCovers(m, restore, row, replicas);
    case BeginImport(job, row, replicas) => BeginImportCovers(m, job, row, replicas);
  }

  lemma CommandCovers(rules: Rules, m: Metadata, command: Command)
    requires ApplyCommand(rules, m, command).Applied?
    ensures var post := ApplyCommand(rules, m, command).meta;
            Covers(m, post, DerivedKeys(m, post, command))
  {
    var post := ApplyCommand(rules, m, command).meta;
    if MemberCommand(command) {
      MemberCommandCovers(rules, m, command, post);
    } else if NodeFactCommand(command) {
      NodeFactCommandCovers(rules, m, command, post);
    } else if TabletCommand(command) {
      TabletCommandCovers(rules, m, command, post);
    } else if PlacementCommand(command) {
      PlacementCommandCovers(rules, m, command, post);
    } else if SchemaCommand(command) {
      SchemaCommandCovers(rules, m, command, post);
    } else if IndexCommand(command) {
      IndexCommandCovers(rules, m, command, post);
    } else if ShardCommand(command) {
      ShardCommandCovers(rules, m, command, post);
    } else if BackupTaskCommand(command) {
      BackupTaskCommandCovers(rules, m, command, post);
    } else if JobCommand(command) {
      JobCommandCovers(rules, m, command, post);
    } else if command.ConvertTableToGlobal? {
      ConvertTableToGlobalCovers(rules, m, command.table, command.spec);
    } else {
      BackupCommandCovers(rules, m, command, post);
    }
  }

  lemma RowsAreTyped(m: Metadata, key: Key)
    ensures Lookup(m, key).Some? ==> Typed(key, Lookup(m, key).value)
  {
  }

  /** Every derived write states its key's new row, and every changed row is written. */
  lemma DerivedCarries(rules: Rules, m: Metadata, command: Command)
    requires ApplyCommand(rules, m, command).Applied?
    ensures var post := ApplyCommand(rules, m, command).meta;
            Carries(m, post, Derived(m, post, command))
  {
    var post := ApplyCommand(rules, m, command).meta;
    var keys := DerivedKeys(m, post, command);
    CommandCovers(rules, m, command);
    DerivedCounters(m, post, command);
    KeysCarry(m, post, keys);
  }

  lemma KeysCarry(m: Metadata, post: Metadata, keys: set<Key>)
    requires Covers(m, post, keys) && CountersKept(post, keys)
    ensures Carries(m, post, RowWrites(post, keys))
  {
    forall w | w in RowWrites(post, keys)
      ensures Sane(w) && w.key != FORMAT_VERSION_KEY && Lookup(post, w.key) == Written(w)
    {
      var key :| key in keys && w == RowWrite(post, key);
      RowsAreTyped(post, key);
    }
    forall key | Lookup(m, key) != Lookup(post, key)
      ensures exists w :: w in RowWrites(post, keys) && w.key == key
    {
      assert key in keys;
      assert RowWrite(post, key) in RowWrites(post, keys) && RowWrite(post, key).key == key;
    }
  }
}

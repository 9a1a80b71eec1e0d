/**
 Pushing the writes of an applied command, and the metadata a node keeps
 mirrored.
 */
module MirrorDerive {
  import opened Wrappers
  import opened WalRecords
  import opened MetadataModel
  import opened KeyWrites
  import opened MetaCommands
  import opened Mirror
  import opened MirrorTask

  function PutMember(m: Metadata, node: NodeId): KeyWrite
    requires node in m.members
  {
    Put(MemberKey(node), MemberRow(m.members[node]))
  }

  function PutAddrs(m: Metadata, node: NodeId): KeyWrite
    requires node in m.nodeAddrs
  {
    Put(NodeAddrsKey(node), AddrsRow(m.nodeAddrs[node]))
  }

  function PutVersion(m: Metadata, node: NodeId): KeyWrite
    requires node in m.nodeVersions
  {
    Put(NodeVersionKey(node), VersionRow(m.nodeVersions[node]))
  }

  function PutCapacity(m: Metadata, node: NodeId): KeyWrite
    requires node in m.nodeCapacity
  {
    Put(NodeCapacityKey(node), CapacityRow(m.nodeCapacity[node]))
  }

  function PutTablet(m: Metadata, id: TabletId): KeyWrite
    requires id in m.tablets
  {
    Put(TabletKey(id), TabletRow(m.tablets[id]))
  }

  function PutPolicy(m: Metadata, id: TabletId): KeyWrite
    requires id in m.policies
  {
    Put(PolicyKey(id), PolicyRow(m.policies[id]))
  }

  function PutLineage(m: Metadata, id: TabletId): KeyWrite
    requires id in m.splitLineage
  {
    Put(LineageKey(id), LineageRow(m.splitLineage[id]))
  }

  function PutPlacing(m: Metadata, id: TabletId): KeyWrite
    requires id in m.splitPlacing
  {
    Put(PlacingKey(id), PlacingRow(m.splitPlacing[id]))
  }

  function PutSchema(m: Metadata, table: TableName): KeyWrite
    requires table in m.schemas
  {
    Put(SchemaKey(table), SchemaRow(m.schemas[table]))
  }

  function PutShard(m: Metadata, id: TabletId, epoch: nat): KeyWrite
    requires (id, epoch) in m.streamShards
  {
    Put(ShardKey(id, epoch), ShardRow(m.streamShards[(id, epoch)]))
  }

  function PutBackup(m: Metadata, backup: BackupId): KeyWrite
    requires backup in m.backups
  {
    Put(BackupKey(backup), BackupRow(m.backups[backup]))
  }

  function PutProgress(m: Metadata, backup: BackupId, id: TabletId): KeyWrite
    requires (backup, id) in m.backupProgress
  {
    Put(ProgressKey(backup, id), ProgressRow(m.backupProgress[(backup, id)]))
  }

  function PutNextTabletId(m: Metadata): KeyWrite {
    Put(CounterKey(NextTabletId), Count(m.nextTabletId))
  }

  // --- Loops over pruned identities -----------------------------------------------------------------

  /** A tombstone for each of these keys, none of which has a row any more. */
  method DeleteKeys(m: Metadata, keys: set<Key>) returns (writes: seq<KeyWrite>)
    requires forall key :: key in keys ==> Lookup(m, key) == None
    ensures Mirrors(writes, m, keys)
  {
    writes := [];
    var todo := keys;
    assert keys - todo == {};
    while todo != {}
      invariant todo <= keys && Mirrors(writes, m, keys - todo)
      decreases |todo|
    {
      var key :| key in todo;
      PushMirrors(writes, m, keys - todo, Delete(key), key);
      assert keys - (todo - {key}) == (keys - todo) + {key};
      writes := writes + [Delete(key)];
      todo := todo - {key};
    }
    assert keys - {} == keys;
  }

  method MirrorChild(m: Metadata, child: TabletId) returns (writes: seq<KeyWrite>)
    requires child in m.tablets && child in m.splitLineage
    ensures Mirrors(writes, m, ChildKeys(m, child))
  {
    OneMirrors(m, PutTablet(m, child), TabletKey(child));
    writes := [PutTablet(m, child)];
    PushMirrors(writes, m, {TabletKey(child)}, PutLineage(m, child), LineageKey(child));
    writes := writes + [PutLineage(m, child)];
    ghost var keys := {TabletKey(child)} + {LineageKey(child)};
    if child in m.policies {
      PushMirrors(writes, m, keys, PutPolicy(m, child), PolicyKey(child));
      writes := writes + [PutPolicy(m, child)];
      keys := keys + {PolicyKey(child)};
    }
    if child in m.splitPlacing {
      PushMirrors(writes, m, keys, PutPlacing(m, child), PlacingKey(child));
      writes := writes + [PutPlacing(m, child)];
      keys := keys + {PlacingKey(child)};
    }
    assert keys == ChildKeys(m, child);
  }

  function KeysOfChildren(m: Metadata, children: set<TabletId>): set<Key> {
    set child, key | child in children && key in ChildKeys(m, child) :: key
  }

  /** The rows of every child of the cutover. */
  method MirrorChildren(m: Metadata, children: set<TabletId>) returns (writes: seq<KeyWrite>)
    requires forall child :: child in children ==> child in m.tablets && child in m.splitLineage
    ensures Mirrors(writes, m, KeysOfChildren(m, children))
  {
    writes := [];
    var todo := children;
    assert KeysOfChildren(m, children - todo) == {};
    while todo != {}
      invariant todo <= children && Mirrors(writes, m, KeysOfChildren(m, children - todo))
      decreases |todo|
    {
      var child :| child in todo;
      var more := MirrorChild(m, child);
      JoinMirrors(writes, more, m, KeysOfChildren(m, children - todo), ChildKeys(m, child));
      assert children - (todo - {child}) == (children - todo) + {child};
      assert KeysOfChildren(m, (children - todo) + {child}) == KeysOfChildren(m, children - todo) + ChildKeys(m, child);
      writes := writes + more;
      todo := todo - {child};
    }
    assert children - {} == children;
  }

  /** Marked rows are put, removed ones tombstoned. */
  method MirrorShards(m: Metadata, rows: seq<(TabletId, nat)>) returns (writes: seq<KeyWrite>)
    ensures Mirrors(writes, m, ShardKeys(rows))
  {
    writes := [];
    assert ShardKeys(rows[..0]) == {};
    for i := 0 to |rows|
      invariant Mirrors(writes, m, ShardKeys(rows[..i]))
    {
      var (id, epoch) := rows[i];
      var w := if (id, epoch) in m.streamShards then PutShard(m, id, epoch) else Delete(ShardKey(id, epoch));
      PushMirrors(writes, m, ShardKeys(rows[..i]), w, ShardKey(id, epoch));
      ShardKeysGrow(rows, i);
      writes := writes + [w];
    }
    assert rows[..|rows|] == rows;
  }

  lemma ShardKeysGrow(rows: seq<(TabletId, nat)>, i: nat)
    requires i < |rows|
    ensures ShardKeys(rows[..i + 1]) == ShardKeys(rows[..i]) + {ShardKey(rows[i].0, rows[i].1)}
  {
    forall id: TabletId, epoch: nat
      ensures ShardKey(id, epoch) in ShardKeys(rows[..i + 1])
              <==> ShardKey(id, epoch) in ShardKeys(rows[..i]) || (id, epoch) == rows[i]
    {
      InShardKeys(rows[..i + 1], id, epoch);
      InShardKeys(rows[..i], id, epoch);
      assert rows[..i + 1] == rows[..i] + [rows[i]];
    }
  }

  // --- The arms of the derivation ------------------------------------------------------------------------

  method MirrorMember(rules: Rules, pre: Metadata, post: Metadata, command: Command) returns (writes: seq<KeyWrite>)
    requires MemberCommand(command) && ApplyCommand(rules, pre, command) == Applied(post)
    ensures Mirrors(writes, post, DerivedKeys(pre, post, command))
  {
    match command {
      case UpsertMember(node, _, _) =>
        OneMirrors(post, PutMember(post, node), MemberKey(node));
        writes := [PutMember(post, node)];
      case RegisterNode(node, _, _, _) =>
        writes := MirrorRegistered(post, node);
      case RemoveMember(node) =>
        RemovedRows(rules, pre, post, node);
        writes := DeleteKeys(post, RemovedMemberKeys(pre, node));
    }
  }

  lemma RemovedRows(rules: Rules, pre: Metadata, post: Metadata, node: NodeId)
    requires ApplyCommand(rules, pre, RemoveMember(node)) == Applied(post)
    ensures forall key :: key in RemovedMemberKeys(pre, node) ==> Lookup(post, key) == None
  {
    assert post == WithoutNode(pre, node);
    forall key | key in RemovedMemberKeys(pre, node)
      ensures Lookup(post, key) == None
    {
      RemovedRow(pre, node, key);
    }
  }

  method MirrorRegistered(post: Metadata, node: NodeId) returns (writes: seq<KeyWrite>)
    requires node in post.nodeAddrs
    ensures Mirrors(writes, post, RegisteredKeys(post, node))
  {
    OneMirrors(post, PutAddrs(post, node), NodeAddrsKey(node));
    writes := [PutAddrs(post, node)];
    ghost var keys := {NodeAddrsKey(node)};
    if node in post.members {
      PushMirrors(writes, post, keys, PutMember(post, node), MemberKey(node));
      writes := writes + [PutMember(post, node)];
      keys := keys + {MemberKey(node)};
    }
    if node in post.nodeCapacity {
      PushMirrors(writes, post, keys, PutCapacity(post, node), NodeCapacityKey(node));
      writes := writes + [PutCapacity(post, node)];
      keys := keys + {NodeCapacityKey(node)};
    }
    assert keys == RegisteredKeys(post, node);
  }

  method MirrorNodeFact(rules: Rules, pre: Metadata, post: Metadata, command: Command) returns (writes: seq<KeyWrite>)
    requires NodeFactCommand(command) && ApplyCommand(rules, pre, command) == Applied(post)
    ensures Mirrors(writes, post, DerivedKeys(pre, post, command))
  {
    match command {
      case SetNodeCapacity(node, _) =>
        var w := if node in post.nodeCapacity then PutCapacity(post, node) else Delete(NodeCapacityKey(node));
        OneMirrors(post, w, NodeCapacityKey(node));
        writes := [w];
      case ReportNodeVersion(node, _) =>
        OneMirrors(post, PutVersion(post, node), NodeVersionKey(node));
        writes := [PutVersion(post, node)];
        if pre.clusterVersion == 0 {
          var era := Put(CounterKey(ClusterVersion), Count(post.clusterVersion));
          PushMirrors(writes, post, {NodeVersionKey(node)}, era, CounterKey(ClusterVersion));
          writes := writes + [era];
        }
    }
  }

  method MirrorTablet(rules: Rules, pre: Metadata, post: Metadata, command: Command) returns (writes: seq<KeyWrite>)
    requires TabletCommand(command) && ApplyCommand(rules, pre, command) == Applied(post)
    ensures Mirrors(writes, post, DerivedKeys(pre, post, command))
  {
    var id := match command
      case CreateTablet(tablet, _, _, _) => tablet
      case CasTabletReplicas(tablet, _, _) => tablet
      case BeginSplitInPlace(parent, _, _) => parent;
    OneMirrors(post, PutTablet(post, id), TabletKey(id));
    writes := [PutTablet(post, id)];
    if !command.CasTabletReplicas? {
      PushMirrors(writes, post, {TabletKey(id)}, PutNextTabletId(post), CounterKey(NextTabletId));
      writes := writes + [PutNextTabletId(post)];
      assert {TabletKey(id)} + {CounterKey(NextTabletId)} == DerivedKeys(pre, post, command);
    }
  }

  /** The parent's rows go; every lineage row that names it is a child whose rows are written. */
  method MirrorCutover(rules: Rules, pre: Metadata, post: Metadata, parent: TabletId, epoch: nat, wallMs: nat)
    returns (writes: seq<KeyWrite>)
    requires IdsFresh(pre) && ApplyCutoverSplit(rules, pre, parent, epoch, wallMs) == Applied(post)
    ensures Mirrors(writes, post, CutoverKeys(post, parent))
  {
    FreshCutoverHasTwoChildren(rules, pre, parent, epoch, wallMs);
    assert parent !in post.tablets && parent !in post.policies;
    var gone := {TabletKey(parent), PolicyKey(parent)};
    writes := DeleteKeys(post, gone);
    var more := MirrorChildren(post, ChildrenOf(post, parent));
    JoinMirrors(writes, more, post, gone, KeysOfChildren(post, ChildrenOf(post, parent)));
    writes := writes + more;
  }

  method MirrorPlacement(rules: Rules, pre: Metadata, post: Metadata, command: Command) returns (writes: seq<KeyWrite>)
    requires IdsFresh(pre) && PlacementCommand(command) && ApplyCommand(rules, pre, command) == Applied(post)
    ensures Mirrors(writes, post, DerivedKeys(pre, post, command))
  {
    match command {
      case CutoverSplit(parent, epoch, wallMs) =>
        writes := MirrorCutover(rules, pre, post, parent, epoch, wallMs);
      case SetTabletPolicy(tablet, policy) =>
        var w := if policy.Some? then Put(PolicyKey(tablet), PolicyRow(policy.value)) else Delete(PolicyKey(tablet));
        OneMirrors(post, w, PolicyKey(tablet));
        writes := [w];
      case MarkSplitPlacingDone(tablet, _) =>
        OneMirrors(post, PutPlacing(post, tablet), PlacingKey(tablet));
        writes := [PutPlacing(post, tablet)];
    }
  }

  method MirrorContinuousBackups(m: Metadata, table: TableName, enabled: bool, wallMs: nat, post: Metadata)
    returns (writes: seq<KeyWrite>)
    requires ApplyUpdateContinuousBackups(m, table, enabled, wallMs) == Applied(post)
    ensures Mirrors(writes, post, ContinuousKeys(post, table))
  {
    OneMirrors(post, PutSchema(post, table), SchemaKey(table));
    writes := [PutSchema(post, table)];
    if table in post.pitrGeneration {
      var counter := CounterKey(PitrGeneration(table));
      PushMirrors(writes, post, {SchemaKey(table)}, Put(counter, Count(post.pitrGeneration[table])), counter);
      writes := writes + [Put(counter, Count(post.pitrGeneration[table]))];
    }
  }

  method MirrorSchema(rules: Rules, pre: Metadata, post: Metadata, command: Command) returns (writes: seq<KeyWrite>)
    requires SchemaCommand(command) && ApplyCommand(rules, pre, command) == Applied(post)
    ensures Mirrors(writes, post, DerivedKeys(pre, post, command))
  {
    match command {
      case CreateTableSchema(table, schema) =>
        OneMirrors(post, PutSchema(post, table), SchemaKey(table));
        writes := [Put(SchemaKey(table), SchemaRow(schema))];
      case DropTableSchema(table) =>
        OneMirrors(post, Delete(SchemaKey(table)), SchemaKey(table));
        writes := [Delete(SchemaKey(table))];
      case UpdateContinuousBackups(table, enabled, wallMs) =>
        writes := MirrorContinuousBackups(pre, table, enabled, wallMs, post);
    }
  }

  lemma DroppedRowsGone(m: Metadata, table: TableName, key: Key)
    requires ApplyDropTableTablets(m, table).Applied? && key in DroppedKeys(m, table)
    ensures Lookup(ApplyDropTableTablets(m, table).meta, key) == None
  {
    match key
    case TabletKey(_) =>
    case PolicyKey(_) =>
    case PlacingKey(_) =>
    case BackfillKey(id, index) => InBackfillKeys(PrunedBackfill(m, TabletsOf(m, table), None), id, index);
  }

  lemma PrunedRowsGone(m: Metadata, table: TableName, index: string, key: Key)
    requires ApplyDropTableIndex(m, table, index).Applied?
    requires key in BackfillKeys(PrunedBackfill(m, TabletsOf(m, table), Some(index)))
    ensures Lookup(ApplyDropTableIndex(m, table, index).meta, key) == None
  {
    InBackfillKeys(PrunedBackfill(m, TabletsOf(m, table), Some(index)), key.id, key.index);
  }

  method MirrorDroppedTable(m: Metadata, table: TableName, post: Metadata) returns (writes: seq<KeyWrite>)
    requires ApplyDropTableTablets(m, table) == Applied(post)
    ensures Mirrors(writes, post, DroppedKeys(m, table))
  {
    forall key | key in DroppedKeys(m, table)
      ensures Lookup(post, key) == None
    {
      DroppedRowsGone(m, table, key);
    }
    writes := DeleteKeys(post, DroppedKeys(m, table));
  }

  method MirrorDroppedIndex(m: Metadata, table: TableName, index: string, post: Metadata)
    returns (writes: seq<KeyWrite>)
    requires ApplyDropTableIndex(m, table, index) == Applied(post)
    ensures Mirrors(writes, post, DroppedIndexKeys(m, table, index))
  {
    var pruned := BackfillKeys(PrunedBackfill(m, TabletsOf(m, table), Some(index)));
    OneMirrors(post, PutSchema(post, table), SchemaKey(table));
    writes := [PutSchema(post, table)];
    forall key | key in pruned
      ensures Lookup(post, key) == None
    {
      PrunedRowsGone(m, table, index, key);
    }
    var more := DeleteKeys(post, pruned);
    JoinMirrors(writes, more, post, {SchemaKey(table)}, pruned);
    writes := writes + more;
  }

  method MirrorCreatedIndex(rules: Rules, m: Metadata, table: TableName, index: string, def: IndexDef, post: Metadata)
    returns (writes: seq<KeyWrite>)
    requires ApplyCreateTableIndex(rules, m, table, index, def) == Applied(post)
    ensures Mirrors(writes, post, {SchemaKey(table)})
  {
    OneMirrors(post, PutSchema(post, table), SchemaKey(table));
    writes := [PutSchema(post, table)];
  }

  method MirrorBackfilled(m: Metadata, table: TableName, index: string, tablet: TabletId, post: Metadata)
    returns (writes: seq<KeyWrite>)
    requires ApplyMarkIndexBackfilled(m, table, index, tablet) == Applied(post)
    ensures Mirrors(writes, post, {BackfillKey(tablet, index)})
  {
    OneMirrors(post, Put(BackfillKey(tablet, index), Present), BackfillKey(tablet, index));
    writes := [Put(BackfillKey(tablet, index), Present)];
  }

  method MirrorIndex(rules: Rules, pre: Metadata, post: Metadata, command: Command) returns (writes: seq<KeyWrite>)
    requires IndexCommand(command) && ApplyCommand(rules, pre, command) == Applied(post)
    ensures Mirrors(writes, post, DerivedKeys(pre, post, command))
  {
    match command {
      case DropTableTablets(table) =>
        writes := MirrorDroppedTable(pre, table, post);
      case DropTableIndex(table, index) =>
        writes := MirrorDroppedIndex(pre, table, index, post);
      case CreateTableIndex(table, index, def) =>
        writes := MirrorCreatedIndex(rules, pre, table, index, def, post);
      case MarkIndexBackfilled(table, index, tablet) =>
        writes := MirrorBackfilled(pre, table, index, tablet, post);
    }
  }

  lemma DeletedBackupRowsGone(m: Metadata, backup: BackupId, key: Key)
    requires ApplyDeleteBackup(m, backup).Applied? && key in DeletedBackupKeys(m, backup)
    ensures Lookup(ApplyDeleteBackup(m, backup).meta, key) == None
  {
    match key
    case BackupKey(_) =>
    case PitrBaseKey(_) =>
    case ProgressKey(b, id) => InProgressKeys(PrunedProgress(m, backup), b, id);
  }

  method MirrorDeletedBackup(m: Metadata, backup: BackupId, post: Metadata) returns (writes: seq<KeyWrite>)
    requires ApplyDeleteBackup(m, backup) == Applied(post)
    ensures Mirrors(writes, post, DeletedBackupKeys(m, backup))
  {
    forall key | key in DeletedBackupKeys(m, backup)
      ensures Lookup(post, key) == None
    {
      DeletedBackupRowsGone(m, backup, key);
    }
    writes := DeleteKeys(post, DeletedBackupKeys(m, backup));
  }

  method MirrorBegunBackup(m: Metadata, backup: BackupId, table: TableName, wallMs: nat, name: string, pitrBase: bool,
                           post: Metadata)
    returns (writes: seq<KeyWrite>)
    requires ApplyBeginBackup(m, backup, table, wallMs, name, pitrBase) == Applied(post)
    ensures Mirrors(writes, post, BegunBackupKeys(backup, pitrBase))
  {
    OneMirrors(post, PutBackup(post, backup), BackupKey(backup));
    writes := [PutBackup(post, backup)];
    if pitrBase {
      PushMirrors(writes, post, {BackupKey(backup)}, Put(PitrBaseKey(backup), Present), PitrBaseKey(backup));
      writes := writes + [Put(PitrBaseKey(backup), Present)];
    }
  }

  method MirrorBackupRow(post: Metadata, backup: BackupId) returns (writes: seq<KeyWrite>)
    requires backup in post.backups
    ensures Mirrors(writes, post, {BackupKey(backup)})
  {
    OneMirrors(post, PutBackup(post, backup), BackupKey(backup));
    writes := [PutBackup(post, backup)];
  }

  method MirrorProgress(m: Metadata, backup: BackupId, tablet: TabletId, progress: BackupProgress, post: Metadata)
    returns (writes: seq<KeyWrite>)
    requires post == m.(backupProgress := m.backupProgress[(backup, tablet) := progress])
    ensures Mirrors(writes, post, {ProgressKey(backup, tablet)})
  {
    OneMirrors(post, PutProgress(post, backup, tablet), ProgressKey(backup, tablet));
    writes := [PutProgress(post, backup, tablet)];
  }

  lemma RecordedPost(rules: Rules, m: Metadata, backup: BackupId, tablet: TabletId, progress: BackupProgress,
                     post: Metadata)
    requires ApplyRecordBackupTabletComplete(rules, m, backup, tablet, progress) == Applied(post)
    ensures post == m.(backupProgress := m.backupProgress[(backup, tablet) := progress])
  {
  }

  lemma CompletedPost(rules: Rules, m: Metadata, backup: BackupId, post: Metadata)
    requires ApplyCompleteBackup(rules, m, backup) == Applied(post)
    ensures backup in post.backups
  {
  }

  lemma FailedPost(m: Metadata, backup: BackupId, reason: string, post: Metadata)
    requires ApplyFailBackup(m, backup, reason) == Applied(post)
    ensures backup in post.backups
  {
  }

  method MirrorBackupTask(rules: Rules, pre: Metadata, post: Metadata, command: Command) returns (writes: seq<KeyWrite>)
    requires BackupTaskCommand(command) && ApplyCommand(rules, pre, command) == Applied(post)
    ensures Mirrors(writes, post, DerivedKeys(pre, post, command))
  {
    match command {
      case RecordBackupTabletComplete(backup, tablet, progress) =>
        RecordedPost(rules, pre, backup, tablet, progress, post);
        writes := MirrorProgress(pre, backup, tablet, progress, post);
      case CompleteBackup(backup) =>
        CompletedPost(rules, pre, backup, post);
        writes := MirrorBackupRow(post, backup);
      case FailBackup(backup, reason) =>
        FailedPost(pre, backup, reason, post);
        writes := MirrorBackupRow(post, backup);
    }
  }

  method MirrorBackup(rules: Rules, pre: Metadata, post: Metadata, command: Command) returns (writes: seq<KeyWrite>)
    requires BackupCommand(command) && ApplyCommand(rules, pre, command) == Applied(post)
    ensures Mirrors(writes, post, DerivedKeys(pre, post, command))
  {
    match command {
      case BeginBackup(backup, table, wallMs, name, pitrBase) =>
        writes := MirrorBegunBackup(pre, backup, table, wallMs, name, pitrBase, post);
      case DeleteBackup(backup) =>
        writes := MirrorDeletedBackup(pre, backup, post);
    }
  }

  /** The tablet minted for a job, the counter it moved, and the job's own row. */
  method MirrorMinted(post: Metadata, tablet: TabletId, key: Key) returns (writes: seq<KeyWrite>)
    requires tablet in post.tablets && Lookup(post, key).Some?
    ensures Mirrors(writes, post, {TabletKey(tablet), CounterKey(NextTabletId), key})
  {
    var put := Put(TabletKey(tablet), TabletRow(post.tablets[tablet]));
    var counter := Put(CounterKey(NextTabletId), Count(post.nextTabletId));
    var job := Put(key, Lookup(post, key).value);
    OneMirrors(post, put, TabletKey(tablet));
    PushMirrors([put], post, {TabletKey(tablet)}, counter, CounterKey(NextTabletId));
    PushMirrors([put] + [counter], post, {TabletKey(tablet)} + {CounterKey(NextTabletId)}, job, key);
    writes := [put] + [counter] + [job];
    assert {TabletKey(tablet)} + {CounterKey(NextTabletId)} + {key}
           == {TabletKey(tablet), CounterKey(NextTabletId), key};
  }

  method MirrorRestore(m: Metadata, restore: string, row: Restore, replicas: set<NodeId>, post: Metadata)
    returns (writes: seq<KeyWrite>)
    requires ApplyBeginRestore(m, restore, row, replicas) == Applied(post)
    ensures Mirrors(writes, post, {TabletKey(row.tablet), CounterKey(NextTabletId), RestoreKey(restore)})
  {
    writes := MirrorMinted(post, row.tablet, RestoreKey(restore));
  }

  method MirrorImport(m: Metadata, job: string, row: ImportJob, replicas: set<NodeId>, post: Metadata)
    returns (writes: seq<KeyWrite>)
    requires ApplyBeginImport(m, job, row, replicas) == Applied(post)
    ensures Mirrors(writes, post, {TabletKey(row.tablet), CounterKey(NextTabletId), ImportKey(job)})
  {
    writes := MirrorMinted(post, row.tablet, ImportKey(job));
  }

  function PolicyKeys(post: Metadata, tablets: set<TabletId>): set<Key> {
    set id | id in tablets && id in post.policies :: PolicyKey(id)
  }

  /** The write of a tablet's policy, if it has one. */
  function PolicyWrites(post: Metadata, id: TabletId): seq<KeyWrite> {
    if id in post.policies then [Put(PolicyKey(id), PolicyRow(post.policies[id]))] else []
  }

  lemma OnePolicyMore(writes: seq<KeyWrite>, post: Metadata, done: set<TabletId>, id: TabletId)
    requires Mirrors(writes, post, PolicyKeys(post, done))
    ensures Mirrors(writes + PolicyWrites(post, id), post, PolicyKeys(post, done + {id}))
  {
    if id in post.policies {
      PushMirrors(writes, post, PolicyKeys(post, done), Put(PolicyKey(id), PolicyRow(post.policies[id])),
                  PolicyKey(id));
      assert PolicyKeys(post, done + {id}) == PolicyKeys(post, done) + {PolicyKey(id)};
    } else {
      assert writes + [] == writes;
      assert PolicyKeys(post, done + {id}) == PolicyKeys(post, done);
    }
  }

  lemma NoPolicyYet(post: Metadata)
    ensures Mirrors([], post, PolicyKeys(post, {}))
  {
    assert SetOf([]) == {} == RowWrites(post, PolicyKeys(post, {}));
  }

  /** The policy of every tablet of the table that has one. */
  method MirrorPolicies(post: Metadata, table: TableName) returns (writes: seq<KeyWrite>)
    ensures Mirrors(writes, post, PinnedKeys(post, table))
  {
    writes := [];
    var todo := TabletsOf(post, table);
    ghost var done: set<TabletId> := {};
    NoPolicyYet(post);
    while todo != {}
      invariant done + todo == TabletsOf(post, table) && done !! todo
      invariant Mirrors(writes, post, PolicyKeys(post, done))
      decreases |todo|
    {
      var id :| id in todo;
      OnePolicyMore(writes, post, done, id);
      writes := writes + PolicyWrites(post, id);
      todo, done := todo - {id}, done + {id};
    }
    assert PolicyKeys(post, done) == PinnedKeys(post, table);
  }

  method MirrorConverted(rules: Rules, m: Metadata, table: TableName, spec: GlobalSpec, post: Metadata)
    returns (writes: seq<KeyWrite>)
    requires ApplyConvertTableToGlobal(rules, m, table, spec) == Applied(post)
    ensures Mirrors(writes, post, ConvertedKeys(post, table))
  {
    OneMirrors(post, PutSchema(post, table), SchemaKey(table));
    var policies := MirrorPolicies(post, table);
    JoinMirrors([PutSchema(post, table)], policies, post, {SchemaKey(table)}, PinnedKeys(post, table));
    writes := [PutSchema(post, table)] + policies;
  }

  method MirrorSealed(m: Metadata, tablet: TabletId, epoch: nat, shard: StreamShard, post: Metadata)
    returns (writes: seq<KeyWrite>)
    requires ApplySealStreamShard(m, tablet, epoch, shard) == Applied(post)
    ensures Mirrors(writes, post, {ShardKey(tablet, epoch)})
  {
    OneMirrors(post, PutShard(post, tablet, epoch), ShardKey(tablet, epoch));
    writes := [PutShard(post, tablet, epoch)];
  }

  method MirrorShard(rules: Rules, pre: Metadata, post: Metadata, command: Command) returns (writes: seq<KeyWrite>)
    requires ShardCommand(command) && ApplyCommand(rules, pre, command) == Applied(post)
    ensures Mirrors(writes, post, DerivedKeys(pre, post, command))
  {
    match command {
      case SealStreamShard(tablet, epoch, shard) =>
        writes := MirrorSealed(pre, tablet, epoch, shard, post);
      case ExpireStreamShards(rows, _) =>
        writes := MirrorShards(post, rows);
    }
  }

  method DeriveWrites(rules: Rules, pre: Metadata, post: Metadata, command: Command) returns (writes: seq<KeyWrite>)
    requires IdsFresh(pre) && ApplyCommand(rules, pre, command) == Applied(post)
    ensures SetOf(writes) == Derived(pre, post, command)
  {
    if MemberCommand(command) {
      writes := MirrorMember(rules, pre, post, command);
    } else if NodeFactCommand(command) {
      writes := MirrorNodeFact(rules, pre, post, command);
    } else if TabletCommand(command) {
      writes := MirrorTablet(rules, pre, post, command);
    } else if PlacementCommand(command) {
      writes := MirrorPlacement(rules, pre, post, command);
    } else if SchemaCommand(command) {
      writes := MirrorSchema(rules, pre, post, command);
    } else if IndexCommand(command) {
      writes := MirrorIndex(rules, pre, post, command);
    } else if ShardCommand(command) {
      writes := MirrorShard(rules, pre, post, command);
    } else if command.BeginRestore? {
      writes := MirrorRestore(pre, command.restore, command.row, command.replicas, post);
    } else if command.BeginImport? {
      writes := MirrorImport(pre, command.job, command.importRow, command.replicas, post);
    } else if command.ConvertTableToGlobal? {
      writes := MirrorConverted(rules, pre, command.table, command.spec, post);
    } else if BackupTaskCommand(command) {
      writes := MirrorBackupTask(rules, pre, post, command);
    } else {
      writes := MirrorBackup(rules, pre, post, command);
    }
  }

  lemma InstalledRows(m: Metadata, w: KeyWrite)
    requires TypedWrite(w)
    ensures forall key :: Lookup(ApplyKeyWrite(m, w), key) == if key == w.key && Effective(w) then Written(w)
                                                              else Lookup(m, key)
  {
    forall key
      ensures Lookup(ApplyKeyWrite(m, w), key) == if key == w.key && Effective(w) then Written(w) else Lookup(m, key)
    {
      if Effective(w) {
        WriteSetsItsKey(m, w, key);
      }
    }
  }

  /** Metadata applied and mirrored in place; the copy a watcher keeps uses `Install` alone. */
  class MirroredMetadata {
    const rules: Rules
    var meta: Metadata

    ghost predicate Valid()
      reads this
    {
      IdsFresh(meta)
    }

    constructor (rules: Rules)
      ensures Valid() && meta == Default() && this.rules == rules
    {
      this.rules := rules;
      meta := Default();
    }

    /**
     Apply a command and derive its key writes.  Folding them onto the metadata from before
     gives the metadata after; a command that was rejected or changed nothing derives none.
     */
    method ApplyAndDerive(command: Command) returns (outcome: Outcome, writes: seq<KeyWrite>)
      requires Valid()
      modifies this
      ensures Valid()
      ensures outcome == ApplyCommand(rules, old(meta), command) && meta == After(outcome, old(meta))
      ensures AllSane(writes) && Fold(old(meta), writes) == meta
      ensures if outcome.Applied? then SetOf(writes) == Derived(old(meta), meta, command) else writes == []
    {
      outcome := ApplyCommand(rules, meta, command);
      writes := [];
      CommandKeepsIds(rules, meta, command);
      if outcome.Applied? {
        writes := DeriveWrites(rules, meta, outcome.meta, command);
        DerivedCarries(rules, meta, command);
        CarriesFolds(meta, outcome.meta, writes);
        meta := outcome.meta;
      }
    }

    /** Install one received write: its own row, and no other; a counter stays and a format version is not kept. */
    method Install(write: KeyWrite)
      requires TypedWrite(write)
      modifies this
      ensures forall key :: Lookup(meta, key) == if key == write.key && Effective(write) then Written(write)
                                                 else Lookup(old(meta), key)
    {
      InstalledRows(meta, write);
      if write.Put? {
        meta := ApplyPut(meta, write.key, write.row);
      } else {
        meta := ApplyDelete(meta, write.key);
      }
    }
  }
}

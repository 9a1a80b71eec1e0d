/**
 Applying metadata commands.  Name reservation, schema validation, placement,
 and the catalog walks behind backups are parameters (`Rules`).
 */
module MetaCommands {
  import opened Wrappers
  import opened WalRecords
  import opened MetadataModel

  const TOKEN_BYTES := 8
  const INITIAL_EPOCH := 1
  const DEFAULT_CAPACITY := Capacity(100, None)

  datatype Rules = Rules(
    reserved: TableName -> bool,
    valid: TableSchema -> bool,
    place: (Metadata, Policy) -> Option<set<NodeId>>,
    finalEpoch: (Metadata, TabletId) -> Option<nat>,
    traces: (Metadata, BackupId, TabletId) -> bool,
    captured: (Metadata, BackupId) -> bool,
    bytesOf: (Metadata, BackupId) -> nat,
    validSpec: GlobalSpec -> bool,
    pinned: (TableName, seq<string>) -> Policy)

  datatype Command =
    | NoOp
    | UpsertMember(node: NodeId, labels: Labels, status: NodeStatus)
    | CreateTablet(tablet: TabletId, scope: Option<TableName>, range: KeyRange, replicas: set<NodeId>)
    | CasTabletReplicas(tablet: TabletId, expectedEpoch: nat, replicas: set<NodeId>)
    | BeginSplitInPlace(parent: TabletId, expectedEpoch: nat, intent: SplitIntent)
    | CutoverSplit(parent: TabletId, expectedEpoch: nat, wallMs: nat)
    | SetTabletPolicy(tablet: TabletId, policy: Option<Policy>)
    | CreateTableSchema(table: TableName, schema: TableSchema)
    | DropTableSchema(table: TableName)
    | DropTableTablets(table: TableName)
    | CreateTableIndex(table: TableName, index: string, def: IndexDef)
    | DropTableIndex(table: TableName, index: string)
    | MarkIndexBackfilled(table: TableName, index: string, tablet: TabletId)
    | MarkSplitPlacingDone(tablet: TabletId, expectedEpoch: nat)
    | RegisterNode(node: NodeId, addrs: NodeAddrs, labels: Labels, capacity: Option<Capacity>)
    | RemoveMember(node: NodeId)
    | SetNodeCapacity(node: NodeId, size: Capacity)
    | ReportNodeVersion(node: NodeId, version: NodeVersion)
    | SealStreamShard(tablet: TabletId, epoch: nat, shard: StreamShard)
    | ExpireStreamShards(rows: seq<(TabletId, nat)>, remove: bool)
    | BeginBackup(backup: BackupId, table: TableName, wallMs: nat, name: string, pitrBase: bool)
    | RecordBackupTabletComplete(backup: BackupId, tablet: TabletId, progress: BackupProgress)
    | CompleteBackup(backup: BackupId)
    | FailBackup(backup: BackupId, reason: string)
    | DeleteBackup(backup: BackupId)
    | UpdateContinuousBackups(table: TableName, enabled: bool, wallMs: nat)
    | BeginRestore(restore: string, row: Restore, replicas: set<NodeId>)
    | BeginImport(job: string, importRow: ImportJob, replicas: set<NodeId>)
    | ConvertTableToGlobal(table: TableName, spec: GlobalSpec)

  datatype Outcome = Applied(meta: Metadata) | Unchanged | Rejected

  function After(o: Outcome, m: Metadata): Metadata {
    if o.Applied? then o.meta else m
  }

  // --- Nodes ---------------------------------------------------------------------------------------

  /** An empty label set never wipes one on file, and activation is sticky. */
  function ApplyUpsertMember(m: Metadata, node: NodeId, labels: Labels, status: NodeStatus): Outcome {
    var had := node in m.members;
    var activated := (had && m.members[node].hasActivated) || status == Active;
    var kept := if had && |labels| == 0 && |m.members[node].labels| > 0 then m.members[node].labels else labels;
    Applied(m.(members := m.members[node := Member(kept, status, activated)]))
  }

  function FillLabels(members: map<NodeId, Member>, node: NodeId, labels: Labels): map<NodeId, Member> {
    if node in members && |members[node].labels| == 0 && |labels| > 0
    then members[node := members[node].(labels := labels)] else members
  }

  function FillCapacity(sizes: map<NodeId, Capacity>, node: NodeId, capacity: Option<Capacity>): map<NodeId, Capacity> {
    if capacity.Some? && capacity.value.weight >= 1 && capacity.value != DEFAULT_CAPACITY && node !in sizes
    then sizes[node := capacity.value] else sizes
  }

  /** Membership is claimed only by data nodes, and a member on file is at most labelled. */
  function Enrolled(members: map<NodeId, Member>, node: NodeId, claims: bool, labels: Labels): map<NodeId, Member> {
    if !claims then members
    else if node in members then FillLabels(members, node, labels)
    else members[node := Member(labels, Down, false)]
  }

  function Registered(m: Metadata, node: NodeId, addrs: NodeAddrs, labels: Labels, capacity: Option<Capacity>): Metadata
  {
    var claims := addrs.role != "control";
    m.(nodeAddrs := m.nodeAddrs[node := addrs],
       members := Enrolled(m.members, node, claims, labels),
       nodeCapacity := if claims then FillCapacity(m.nodeCapacity, node, capacity) else m.nodeCapacity)
  }

  /** The address book is claimed once; registering again only fills what is missing. */
  function ApplyRegisterNode(m: Metadata, node: NodeId, addrs: NodeAddrs, labels: Labels,
                             capacity: Option<Capacity>): Outcome
  {
    if node in m.nodeAddrs && m.nodeAddrs[node] != addrs then Rejected
    else if node in m.nodeAddrs && Registered(m, node, addrs, labels, capacity) == m then Unchanged
    else Applied(Registered(m, node, addrs, labels, capacity))
  }

  predicate Referenced(m: Metadata, node: NodeId) {
    exists id :: id in m.tablets && node in m.tablets[id].replicas
  }

  function WithoutNode(m: Metadata, node: NodeId): Metadata {
    m.(members := m.members - {node}, nodeAddrs := m.nodeAddrs - {node},
       nodeVersions := m.nodeVersions - {node}, nodeCapacity := m.nodeCapacity - {node})
  }

  /** A drained member goes with everything recorded of it; an orphaned claim is cleaned up too. */
  function ApplyRemoveMember(m: Metadata, node: NodeId): Outcome {
    if node !in m.members then
      if node in m.nodeAddrs || node in m.nodeVersions || node in m.nodeCapacity
      then Applied(WithoutNode(m, node)) else Unchanged
    else if m.members[node].status == Active || m.members[node].status == Joining then Rejected
    else if Referenced(m, node) then Rejected
    else Applied(WithoutNode(m, node))
  }

  function ApplySetNodeCapacity(m: Metadata, node: NodeId, size: Capacity): Outcome {
    if node !in m.members || size.weight == 0 then Rejected
    else if size == DEFAULT_CAPACITY then
      if node in m.nodeCapacity then Applied(m.(nodeCapacity := m.nodeCapacity - {node})) else Unchanged
    else if node in m.nodeCapacity && m.nodeCapacity[node] == size then Unchanged
    else Applied(m.(nodeCapacity := m.nodeCapacity[node := size]))
  }

  /** The first report starts the version era. */
  function ApplyReportNodeVersion(m: Metadata, node: NodeId, version: NodeVersion): Outcome {
    var current := if m.clusterVersion == 0 then 1 else m.clusterVersion;
    if node !in m.members && node !in m.nodeAddrs then Rejected
    else if !(1 <= version.min <= version.max) || !(version.min <= current <= version.max) then Rejected
    else if node in m.nodeVersions && m.nodeVersions[node] == version then Unchanged
    else Applied(m.(nodeVersions := m.nodeVersions[node := version], clusterVersion := current))
  }

  // --- Tablets -----------------------------------------------------------------------------------------

  function TabletsOf(m: Metadata, table: TableName): set<TabletId> {
    set id | id in m.tablets && m.tablets[id].table == Some(table)
  }

  /** No id below this is ever handed out again. */
  predicate BelowFloor(m: Metadata, id: TabletId) {
    id < m.nextTabletId || id < 1 || exists other :: other in m.tablets && id <= other
  }

  function ApplyCreateTablet(m: Metadata, tablet: TabletId, scope: Option<TableName>, range: KeyRange,
                             replicas: set<NodeId>): Outcome
  {
    if tablet in m.tablets || (scope.Some? && TabletsOf(m, scope.value) != {}) || BelowFloor(m, tablet) then Rejected
    else Applied(m.(tablets := m.tablets[tablet := Tablet(scope, range, replicas, INITIAL_EPOCH, Serving, None)],
                    nextTabletId := Max(m.nextTabletId, tablet + 1)))
  }

  function ApplyCasTabletReplicas(m: Metadata, tablet: TabletId, expectedEpoch: nat, replicas: set<NodeId>): Outcome {
    if tablet !in m.tablets || m.tablets[tablet].epoch != expectedEpoch then Rejected
    else
      var t := m.tablets[tablet];
      Applied(m.(tablets := m.tablets[tablet := t.(replicas := replicas, epoch := t.epoch + 1)]))
  }

  predicate Less(a: string, b: string) {
    b != [] && (a == [] || a[0] < b[0] || (a[0] == b[0] && Less(a[1..], b[1..])))
  }

  /** The two halves of a range, when `at` is strictly inside it. */
  function SplitAt(range: KeyRange, at: string): Option<(KeyRange, KeyRange)> {
    if !Less(range.start, at) || (range.end.Some? && !Less(at, range.end.value)) then None
    else Some((KeyRange(range.start, Some(at)), KeyRange(at, range.end)))
  }

  /** The split is only an intent on the parent, but its children's ids are taken at once. */
  function ApplyBeginSplit(m: Metadata, parent: TabletId, expectedEpoch: nat, intent: SplitIntent): Outcome {
    if intent.left == intent.right || intent.left in m.tablets || intent.right in m.tablets
       || BelowFloor(m, intent.left) || BelowFloor(m, intent.right) then Rejected
    else if parent !in m.tablets then Rejected
    else
      var t := m.tablets[parent];
      if t.epoch != expectedEpoch || t.state != Serving then Rejected
      else if |intent.key| != TOKEN_BYTES && t.table.Some? && t.table.value in m.schemas
              && m.schemas[t.table.value].streamLabel.Some?
      then Rejected
      else if SplitAt(t.range, intent.key).None? then Rejected
      else Applied(m.(tablets := m.tablets[parent := t.(state := Splitting, split := Some(intent),
                                                        epoch := t.epoch + 1)],
                      nextTabletId := Max(Max(m.nextTabletId, intent.left + 1), intent.right + 1)))
  }

  function Child(table: Option<TableName>, range: KeyRange, replicas: set<NodeId>): Tablet {
    Tablet(table, range, replicas, INITIAL_EPOCH + 1, Serving, None)
  }

  /** A directed placement is recorded for a child whose replicas are not the ones wanted now. */
  function Placed(placing: map<TabletId, SplitPlacing>, child: TabletId, replicas: set<NodeId>,
                  wanted: Option<set<NodeId>>)
    : map<TabletId, SplitPlacing>
  {
    if wanted == Some(replicas) then placing else placing[child := SplitPlacing(wanted, false)]
  }

  /** The children take the parent's place, its policy, and a lineage row each; the parent goes. */
  function CutOver(rules: Rules, m: Metadata, parent: TabletId, t: Tablet, intent: SplitIntent,
                   halves: (KeyRange, KeyRange), wallMs: nat): Metadata
  {
    var lineage := SplitLineage(parent, rules.finalEpoch(m, parent), wallMs);
    var hasPolicy := parent in m.policies;
    var policies := if !hasPolicy then m.policies
                    else m.policies[intent.left := m.policies[parent]][intent.right := m.policies[parent]];
    var wanted := if hasPolicy then rules.place(m, m.policies[parent]) else None;
    m.(tablets := m.tablets[intent.left := Child(t.table, halves.0, intent.leftReplicas)]
                           [intent.right := Child(t.table, halves.1, intent.rightReplicas)] - {parent},
       policies := policies - {parent},
       splitLineage := m.splitLineage[intent.left := lineage][intent.right := lineage],
       splitPlacing := if hasPolicy
                       then Placed(Placed(m.splitPlacing, intent.left, intent.leftReplicas, wanted),
                                   intent.right, intent.rightReplicas, wanted)
                       else m.splitPlacing)
  }

  function ApplyCutoverSplit(rules: Rules, m: Metadata, parent: TabletId, expectedEpoch: nat, wallMs: nat): Outcome {
    if parent !in m.tablets then Rejected
    else
      var t := m.tablets[parent];
      if t.epoch != expectedEpoch || t.state != Splitting || t.split.None? then Rejected
      else
        var intent := t.split.value;
        match SplitAt(t.range, intent.key)
        case None => Rejected
        case Some(halves) =>
          if intent.left in m.tablets || intent.right in m.tablets then Rejected
          else Applied(CutOver(rules, m, parent, t, intent, halves, wallMs))
  }

  function ApplySetTabletPolicy(m: Metadata, tablet: TabletId, policy: Option<Policy>): Outcome {
    if tablet !in m.tablets then Rejected
    else Applied(m.(policies := if policy.Some? then m.policies[tablet := policy.value] else m.policies - {tablet}))
  }

  function ApplyMarkSplitPlacingDone(m: Metadata, tablet: TabletId, expectedEpoch: nat): Outcome {
    if tablet !in m.tablets || m.tablets[tablet].epoch != expectedEpoch || tablet !in m.splitPlacing then Rejected
    else if m.splitPlacing[tablet].done then Unchanged
    else Applied(m.(splitPlacing := m.splitPlacing[tablet := m.splitPlacing[tablet].(done := true)]))
  }

  // --- Tables ----------------------------------------------------------------------------------------------

  function ApplyCreateTableSchema(rules: Rules, m: Metadata, table: TableName, schema: TableSchema): Outcome {
    if rules.reserved(table) || '$' in table || table in m.schemas || !rules.valid(schema) then Rejected
    else Applied(m.(schemas := m.schemas[table := schema]))
  }

  function ApplyDropTableSchema(m: Metadata, table: TableName): Outcome {
    if table in m.schemas then Applied(m.(schemas := m.schemas - {table})) else Unchanged
  }

  /** A dropped tablet takes its policy, its backfill rows and its placement with it. */
  function ApplyDropTableTablets(m: Metadata, table: TableName): Outcome {
    var dropped := TabletsOf(m, table);
    if dropped == {} then Unchanged
    else Applied(m.(tablets := m.tablets - dropped, policies := m.policies - dropped,
                    indexBackfill := (set row | row in m.indexBackfill && row.0 !in dropped),
                    splitPlacing := m.splitPlacing - dropped))
  }

  predicate Mrsc(schema: TableSchema) {
    schema.global.Some? && schema.global.value.strong
  }

  function ApplyCreateTableIndex(rules: Rules, m: Metadata, table: TableName, index: string, def: IndexDef): Outcome {
    if table !in m.schemas then Rejected
    else
      var candidate := m.schemas[table].(indexes := m.schemas[table].indexes[index := def]);
      if (Mrsc(m.schemas[table]) && def.local) || !rules.valid(candidate) then Rejected
      else Applied(m.(schemas := m.schemas[table := candidate]))
  }

  /** The index's backfill rows go with it, but only this table's: another may have an index of the same name. */
  function ApplyDropTableIndex(m: Metadata, table: TableName, index: string): Outcome {
    if table !in m.schemas || index !in m.schemas[table].indexes then Unchanged
    else
      var schema := m.schemas[table].(indexes := m.schemas[table].indexes - {index});
      var tablets := TabletsOf(m, table);
      Applied(m.(schemas := m.schemas[table := schema],
                 indexBackfill := (set row | row in m.indexBackfill && !(row.1 == index && row.0 in tablets))))
  }

  function ApplyMarkIndexBackfilled(m: Metadata, table: TableName, index: string, tablet: TabletId): Outcome {
    if table !in m.schemas || index !in m.schemas[table].indexes || tablet !in TabletsOf(m, table) then Rejected
    else if (tablet, index) in m.indexBackfill then Unchanged
    else Applied(m.(indexBackfill := m.indexBackfill + {(tablet, index)}))
  }

  /** Generations are never reused, even across a disable. */
  function ApplyUpdateContinuousBackups(m: Metadata, table: TableName, enabled: bool, wallMs: nat): Outcome {
    if table !in m.schemas then Rejected
    else if enabled == m.schemas[table].pitr.Some? then Unchanged
    else if !enabled then Applied(m.(schemas := m.schemas[table := m.schemas[table].(pitr := None)]))
    else
      var generation := if table in m.pitrGeneration then m.pitrGeneration[table] + 1 else 1;
      Applied(m.(pitrGeneration := m.pitrGeneration[table := generation],
                 schemas := m.schemas[table := m.schemas[table].(pitr := Some(PitrSpec(generation, wallMs)))]))
  }

  function Pinned(policies: map<TabletId, Policy>, tablets: set<TabletId>, policy: Policy): map<TabletId, Policy> {
    map id | id in policies.Keys + tablets :: if id in tablets then policy else policies[id]
  }

  predicate HasLocalIndex(schema: TableSchema) {
    exists index :: index in schema.indexes && schema.indexes[index].local
  }

  /** Every tablet of the table is pinned to the regions at once. */
  function ApplyConvertTableToGlobal(rules: Rules, m: Metadata, table: TableName, spec: GlobalSpec): Outcome {
    if table !in m.schemas then Rejected
    else
      var schema := m.schemas[table];
      if schema.global.Some? then if schema.global.value == spec then Unchanged else Rejected
      else if !spec.strong || !rules.validSpec(spec) || schema.ttl || HasLocalIndex(schema) then Rejected
      else if TabletsOf(m, table) == {} then Rejected
      else Applied(m.(policies := Pinned(m.policies, TabletsOf(m, table), rules.pinned(table, spec.regions)),
                      schemas := m.schemas[table := schema.(global := Some(spec))]))
  }

  // --- Stream shards -----------------------------------------------------------------------------------------

  predicate Licensed(m: Metadata, shard: StreamShard) {
    || (shard.table in m.schemas && m.schemas[shard.table].streamLabel == Some(shard.streamLabel))
    || (exists key :: key in m.streamShards && m.streamShards[key].table == shard.table
                      && m.streamShards[key].streamLabel == shard.streamLabel)
  }

  function WithShard(m: Metadata, key: (TabletId, nat), row: StreamShard): (post: Metadata)
    ensures key in post.streamShards
  {
    m.(streamShards := m.streamShards[key := row])
  }

  predicate SameContent(a: StreamShard, b: StreamShard) {
    a.table == b.table && a.streamLabel == b.streamLabel && a.content == b.content
  }

  /** First committer wins on content; only the replicas of a sealed shard may still move. */
  function ApplySealStreamShard(m: Metadata, tablet: TabletId, epoch: nat, shard: StreamShard): (o: Outcome)
    ensures o.Applied? ==> (tablet, epoch) in o.meta.streamShards
  {
    var key := (tablet, epoch);
    if key in m.streamShards then
      var row := m.streamShards[key];
      if !SameContent(row, shard) || row.replicas == shard.replicas then Unchanged
      else Applied(WithShard(m, key, row.(replicas := shard.replicas)))
    else if !Licensed(m, shard) || (epoch > 0 && (tablet, epoch - 1) !in m.streamShards) then Rejected
    else Applied(WithShard(m, key, shard.(expired := false)))
  }

  function ApplyExpireStreamShards(m: Metadata, rows: seq<(TabletId, nat)>, remove: bool): Outcome {
    var present := set key | key in rows && key in m.streamShards;
    var live := set key | key in present && !m.streamShards[key].expired;
    if remove then
      if present == {} then Unchanged else Applied(m.(streamShards := m.streamShards - present))
    else if live == {} then Unchanged
    else Applied(m.(streamShards := map key | key in m.streamShards ::
                      if key in live then m.streamShards[key].(expired := true) else m.streamShards[key]))
  }

  // --- Backups -------------------------------------------------------------------------------------------------

  /** The tablets a backup pins are the current owners of the table's ranges. */
  function ApplyBeginBackup(m: Metadata, backup: BackupId, table: TableName, wallMs: nat, name: string,
                            pitrBase: bool): Outcome
  {
    if backup in m.backups || table !in m.schemas then Rejected
    else
      var pinned := map id | id in TabletsOf(m, table) && m.tablets[id].state != Building :: m.tablets[id].range;
      Applied(m.(backups := m.backups[backup := Backup(table, name, Creating, m.schemas[table], pinned, wallMs, 0)],
                 pitrBaseBackups := if pitrBase then m.pitrBaseBackups + {backup} else m.pitrBaseBackups))
  }

  function ApplyRecordBackupTabletComplete(rules: Rules, m: Metadata, backup: BackupId, tablet: TabletId,
                                           progress: BackupProgress): Outcome
  {
    if backup !in m.backups || !m.backups[backup].status.Creating? || !rules.traces(m, backup, tablet) then Rejected
    else if (backup, tablet) in m.backupProgress then
      if m.backupProgress[(backup, tablet)] == progress then Unchanged else Rejected
    else Applied(m.(backupProgress := m.backupProgress[(backup, tablet) := progress]))
  }

  function ApplyCompleteBackup(rules: Rules, m: Metadata, backup: BackupId): Outcome {
    if backup !in m.backups || !m.backups[backup].status.Creating? || !rules.captured(m, backup) then Rejected
    else Applied(m.(backups := m.backups[backup := m.backups[backup].(status := Available,
                                                                      totalBytes := rules.bytesOf(m, backup))]))
  }

  function ApplyFailBackup(m: Metadata, backup: BackupId, reason: string): Outcome {
    if backup !in m.backups then Rejected
    else if m.backups[backup].status == FailedWith(reason) then Unchanged
    else if m.backups[backup].status.Creating? || m.backups[backup].status.FailedWith?
    then Applied(m.(backups := m.backups[backup := m.backups[backup].(status := FailedWith(reason))]))
    else Rejected
  }

  function ApplyDeleteBackup(m: Metadata, backup: BackupId): Outcome {
    if backup !in m.backups then Unchanged
    else Applied(m.(backups := m.backups - {backup},
                    backupProgress := (map key | key in m.backupProgress && key.0 != backup :: m.backupProgress[key]),
                    pitrBaseBackups := m.pitrBaseBackups - {backup}))
  }

  // --- Restores and imports ------------------------------------------------------------------------------------

  const WHOLE := KeyRange("", None)

  /** A fresh tablet over the whole range that serves nothing yet. */
  function Minted(m: Metadata, tablet: TabletId, table: TableName, replicas: set<NodeId>): Metadata {
    m.(tablets := m.tablets[tablet := Tablet(Some(table), WHOLE, replicas, INITIAL_EPOCH, Building, None)],
       nextTabletId := Max(m.nextTabletId, tablet + 1))
  }

  predicate Unrestorable(m: Metadata, backup: BackupId) {
    backup in m.backups && (m.backups[backup].status.Expired? || m.backups[backup].status.FailedWith?)
  }

  function ApplyBeginRestore(m: Metadata, restore: string, row: Restore, replicas: set<NodeId>): Outcome {
    if restore in m.restores || row.tablet in m.tablets || Unrestorable(m, row.backup) || BelowFloor(m, row.tablet)
    then Rejected
    else
      var minted := Minted(m, row.tablet, row.target, replicas);
      Applied(minted.(restores := m.restores[restore := row.(status := Seeding)]))
  }

  function ApplyBeginImport(m: Metadata, job: string, row: ImportJob, replicas: set<NodeId>): Outcome {
    if job in m.imports || row.tablet in m.tablets || BelowFloor(m, row.tablet) then Rejected
    else
      var minted := Minted(m, row.tablet, row.target, replicas);
      Applied(minted.(imports := m.imports[job := row.(status := InProgress)]))
  }

  function ApplyCommand(rules: Rules, m: Metadata, command: Command): Outcome {
    match command
    case NoOp => Unchanged
    case UpsertMember(node, labels, status) => ApplyUpsertMember(m, node, labels, status)
    case CreateTablet(tablet, scope, range, replicas) => ApplyCreateTablet(m, tablet, scope, range, replicas)
    case CasTabletReplicas(tablet, epoch, replicas) => ApplyCasTabletReplicas(m, tablet, epoch, replicas)
    case BeginSplitInPlace(parent, epoch, intent) => ApplyBeginSplit(m, parent, epoch, intent)
    case CutoverSplit(parent, epoch, wallMs) => ApplyCutoverSplit(rules, m, parent, epoch, wallMs)
    case SetTabletPolicy(tablet, policy) => ApplySetTabletPolicy(m, tablet, policy)
    case CreateTableSchema(table, schema) => ApplyCreateTableSchema(rules, m, table, schema)
    case DropTableSchema(table) => ApplyDropTableSchema(m, table)
    case DropTableTablets(table) => ApplyDropTableTablets(m, table)
    case CreateTableIndex(table, index, def) => ApplyCreateTableIndex(rules, m, table, index, def)
    case DropTableIndex(table, index) => ApplyDropTableIndex(m, table, index)
    case MarkIndexBackfilled(table, index, tablet) => ApplyMarkIndexBackfilled(m, table, index, tablet)
    case MarkSplitPlacingDone(tablet, epoch) => ApplyMarkSplitPlacingDone(m, tablet, epoch)
    case RegisterNode(node, addrs, labels, capacity) => ApplyRegisterNode(m, node, addrs, labels, capacity)
    case RemoveMember(node) => ApplyRemoveMember(m, node)
    case SetNodeCapacity(node, size) => ApplySetNodeCapacity(m, node, size)
    case ReportNodeVersion(node, version) => ApplyReportNodeVersion(m, node, version)
    case SealStreamShard(tablet, epoch, shard) => ApplySealStreamShard(m, tablet, epoch, shard)
    case ExpireStreamShards(rows, remove) => ApplyExpireStreamShards(m, rows, remove)
    case BeginBackup(backup, table, wallMs, name, pitrBase) =>
      ApplyBeginBackup(m, backup, table, wallMs, name, pitrBase)
    case RecordBackupTabletComplete(backup, tablet, progress) =>
      ApplyRecordBackupTabletComplete(rules, m, backup, tablet, progress)
    case CompleteBackup(backup) => ApplyCompleteBackup(rules, m, backup)
    case FailBackup(backup, reason) => ApplyFailBackup(m, backup, reason)
    case DeleteBackup(backup) => ApplyDeleteBackup(m, backup)
    case UpdateContinuousBackups(table, enabled, wallMs) => ApplyUpdateContinuousBackups(m, table, enabled, wallMs)
    case BeginRestore(restore, row, replicas) => ApplyBeginRestore(m, restore, row, replicas)
    case BeginImport(job, row, replicas) => ApplyBeginImport(m, job, row, replicas)
    case ConvertTableToGlobal(table, spec) => ApplyConvertTableToGlobal(rules, m, table, spec)
  }
}

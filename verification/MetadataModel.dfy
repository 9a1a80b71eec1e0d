/**
 The control plane's metadata, its system-keyspace rows, and the installation
 of key writes onto a copy.  A key is a datatype value: its byte encoding is
 taken to be injective, and a row its JSON.
 */
module MetadataModel {
  import opened Wrappers
  import opened WalRecords

  type TableName = string
  type BackupId = string
  type Policy = string
  type Labels = map<string, string>

  datatype NodeStatus = Joining | Active | Leaving | Down
  datatype Member = Member(labels: Labels, status: NodeStatus, hasActivated: bool)
  datatype NodeAddrs = NodeAddrs(role: string, addrs: string)
  datatype NodeVersion = NodeVersion(min: nat, max: nat, build: string)
  datatype Capacity = Capacity(weight: nat, maxReplicas: Option<nat>)

  datatype KeyRange = KeyRange(start: string, end: Option<string>)
  datatype TabletState = Serving | Building | Splitting
  datatype SplitIntent = SplitIntent(key: string, left: TabletId, leftReplicas: set<NodeId>,
                                     right: TabletId, rightReplicas: set<NodeId>)
  datatype Tablet = Tablet(table: Option<TableName>, range: KeyRange, replicas: set<NodeId>, epoch: nat,
                           state: TabletState, split: Option<SplitIntent>)
  datatype SplitLineage = SplitLineage(parent: TabletId, parentsFinalEpoch: Option<nat>, cutoverWallMs: nat)
  datatype SplitPlacing = SplitPlacing(target: Option<set<NodeId>>, done: bool)

  datatype IndexDef = IndexDef(local: bool, attributes: string)
  datatype PitrSpec = PitrSpec(generation: nat, enabledWallMs: nat)
  datatype GlobalSpec = GlobalSpec(strong: bool, regions: seq<string>, roles: string)
  datatype TableSchema = TableSchema(columns: string, indexes: map<string, IndexDef>, streamLabel: Option<string>,
                                     pitr: Option<PitrSpec>, ttl: bool, global: Option<GlobalSpec>)
  datatype StreamShard = StreamShard(table: TableName, streamLabel: string, content: string, replicas: set<NodeId>,
                                     expired: bool)

  datatype BackupStatus = Creating | Available | FailedWith(reason: string) | Expired
  datatype Backup = Backup(table: TableName, name: string, status: BackupStatus, schema: TableSchema,
                           pinned: map<TabletId, KeyRange>, createdWallMs: nat, totalBytes: nat)
  datatype BackupProgress = BackupProgress(cutVersion: nat, bytes: nat, chunks: nat)
  datatype RestoreStatus = Seeding | RestoreDone | RestoreFailed(reason: string)
  datatype Restore = Restore(backup: BackupId, source: TableName, target: TableName, tablet: TabletId, indexes: string,
                             status: RestoreStatus)
  datatype ImportStatus = InProgress | ImportCompleted | ImportFailed(reason: string)
  datatype ImportJob = ImportJob(target: TableName, request: string, tablet: TabletId, status: ImportStatus,
                                 createdWallMs: nat)

  datatype Metadata = Metadata(
    members: map<NodeId, Member>,
    tablets: map<TabletId, Tablet>,
    policies: map<TabletId, Policy>,
    schemas: map<TableName, TableSchema>,
    nextTabletId: nat,
    nodeAddrs: map<NodeId, NodeAddrs>,
    nodeVersions: map<NodeId, NodeVersion>,
    nodeCapacity: map<NodeId, Capacity>,
    clusterVersion: nat,
    splitLineage: map<TabletId, SplitLineage>,
    splitPlacing: map<TabletId, SplitPlacing>,
    streamShards: map<(TabletId, nat), StreamShard>,
    indexBackfill: set<(TabletId, string)>,
    backups: map<BackupId, Backup>,
    backupProgress: map<(BackupId, TabletId), BackupProgress>,
    pitrBaseBackups: set<BackupId>,
    pitrGeneration: map<TableName, nat>,
    restores: map<string, Restore>,
    imports: map<string, ImportJob>)

  function Default(): Metadata {
    Metadata(map[], map[], map[], map[], 0, map[], map[], map[], 0,
             map[], map[], map[], {}, map[], map[], {}, map[], map[], map[])
  }

  // --- The system keyspace ---------------------------------------------------------------------------

  datatype Counter = NextTabletId | ClusterVersion | PitrGeneration(table: TableName) | FormatVersion

  datatype Key =
    | MemberKey(node: NodeId) | TabletKey(id: TabletId) | PolicyKey(id: TabletId) | SchemaKey(table: TableName)
    | NodeAddrsKey(node: NodeId) | NodeVersionKey(node: NodeId) | NodeCapacityKey(node: NodeId)
    | LineageKey(id: TabletId) | PlacingKey(id: TabletId) | ShardKey(id: TabletId, epoch: nat)
    | BackfillKey(id: TabletId, index: string) | BackupKey(backup: BackupId)
    | ProgressKey(backup: BackupId, id: TabletId) | PitrBaseKey(backup: BackupId)
    | RestoreKey(restore: string) | ImportKey(job: string) | CounterKey(counter: Counter)

  datatype Row =
    | MemberRow(member: Member) | TabletRow(tablet: Tablet) | PolicyRow(policy: Policy) | SchemaRow(schema: TableSchema)
    | AddrsRow(addrs: NodeAddrs) | VersionRow(version: NodeVersion) | CapacityRow(capacity: Capacity)
    | LineageRow(lineage: SplitLineage) | PlacingRow(placing: SplitPlacing) | ShardRow(shard: StreamShard)
    | Present | BackupRow(backup: Backup) | ProgressRow(progress: BackupProgress)
    | RestoreRow(restore: Restore) | ImportRow(job: ImportJob) | Count(n: nat)

  datatype KeyWrite = Put(key: Key, row: Row) | Delete(key: Key)

  /** The row at this key is of the key's own kind. */
  predicate Typed(key: Key, row: Row) {
    match key
    case MemberKey(_) => row.MemberRow?
    case TabletKey(_) => row.TabletRow?
    case PolicyKey(_) => row.PolicyRow?
    case SchemaKey(_) => row.SchemaRow?
    case NodeAddrsKey(_) => row.AddrsRow?
    case NodeVersionKey(_) => row.VersionRow?
    case NodeCapacityKey(_) => row.CapacityRow?
    case LineageKey(_) => row.LineageRow?
    case PlacingKey(_) => row.PlacingRow?
    case ShardKey(_, _) => row.ShardRow?
    case BackfillKey(_, _) => row.Present?
    case BackupKey(_) => row.BackupRow?
    case ProgressKey(_, _) => row.ProgressRow?
    case PitrBaseKey(_) => row.Present?
    case RestoreKey(_) => row.RestoreRow?
    case ImportKey(_) => row.ImportRow?
    case CounterKey(_) => row.Count?
  }

  predicate NodeKey(key: Key) {
    key.MemberKey? || key.NodeAddrsKey? || key.NodeVersionKey? || key.NodeCapacityKey?
  }

  predicate OfTablet(key: Key) {
    key.TabletKey? || key.PolicyKey? || key.LineageKey? || key.PlacingKey?
  }

  predicate OfTable(key: Key) {
    key.SchemaKey? || key.ShardKey? || key.BackfillKey?
  }

  predicate OfBackup(key: Key) {
    key.BackupKey? || key.ProgressKey? || key.PitrBaseKey?
  }

  predicate OfJob(key: Key) {
    key.RestoreKey? || key.ImportKey?
  }

  function NodeLookup(members: map<NodeId, Member>, addrs: map<NodeId, NodeAddrs>, versions: map<NodeId, NodeVersion>,
                      capacity: map<NodeId, Capacity>, key: Key): Option<Row>
  {
    match key
    case MemberKey(node) => if node in members then Some(MemberRow(members[node])) else None
    case NodeAddrsKey(node) => if node in addrs then Some(AddrsRow(addrs[node])) else None
    case NodeVersionKey(node) => if node in versions then Some(VersionRow(versions[node])) else None
    case NodeCapacityKey(node) => if node in capacity then Some(CapacityRow(capacity[node])) else None
    case _ => None
  }

  function TabletLookup(tablets: map<TabletId, Tablet>, policies: map<TabletId, Policy>,
                        lineage: map<TabletId, SplitLineage>, placing: map<TabletId, SplitPlacing>, key: Key)
    : Option<Row>
  {
    match key
    case TabletKey(id) => if id in tablets then Some(TabletRow(tablets[id])) else None
    case PolicyKey(id) => if id in policies then Some(PolicyRow(policies[id])) else None
    case LineageKey(id) => if id in lineage then Some(LineageRow(lineage[id])) else None
    case PlacingKey(id) => if id in placing then Some(PlacingRow(placing[id])) else None
    case _ => None
  }

  function TableLookup(schemas: map<TableName, TableSchema>, shards: map<(TabletId, nat), StreamShard>,
                       backfill: set<(TabletId, string)>, key: Key): Option<Row>
  {
    match key
    case SchemaKey(table) => if table in schemas then Some(SchemaRow(schemas[table])) else None
    case ShardKey(id, epoch) => if (id, epoch) in shards then Some(ShardRow(shards[(id, epoch)])) else None
    case BackfillKey(id, index) => if (id, index) in backfill then Some(Present) else None
    case _ => None
  }

  function BackupLookup(backups: map<BackupId, Backup>, progress: map<(BackupId, TabletId), BackupProgress>,
                        bases: set<BackupId>, key: Key): Option<Row>
  {
    match key
    case BackupKey(backup) => if backup in backups then Some(BackupRow(backups[backup])) else None
    case ProgressKey(backup, id) => if (backup, id) in progress then Some(ProgressRow(progress[(backup, id)])) else None
    case PitrBaseKey(backup) => if backup in bases then Some(Present) else None
    case _ => None
  }

  function JobLookup(restores: map<string, Restore>, imports: map<string, ImportJob>, key: Key): Option<Row> {
    match key
    case RestoreKey(restore) => if restore in restores then Some(RestoreRow(restores[restore])) else None
    case ImportKey(job) => if job in imports then Some(ImportRow(imports[job])) else None
    case _ => None
  }

  function CounterLookup(nextTabletId: nat, clusterVersion: nat, generations: map<TableName, nat>,
                         counter: Counter): Option<Row>
  {
    match counter
    case NextTabletId => Some(Count(nextTabletId))
    case ClusterVersion => Some(Count(clusterVersion))
    case PitrGeneration(table) => if table in generations then Some(Count(generations[table])) else None
    case FormatVersion => None
  }

  /** The row a metadata value has at a key. */
  function Lookup(m: Metadata, key: Key): Option<Row> {
    if NodeKey(key) then NodeLookup(m.members, m.nodeAddrs, m.nodeVersions, m.nodeCapacity, key)
    else if OfTablet(key) then TabletLookup(m.tablets, m.policies, m.splitLineage, m.splitPlacing, key)
    else if OfTable(key) then TableLookup(m.schemas, m.streamShards, m.indexBackfill, key)
    else if OfBackup(key) then BackupLookup(m.backups, m.backupProgress, m.pitrBaseBackups, key)
    else if OfJob(key) then JobLookup(m.restores, m.imports, key)
    else CounterLookup(m.nextTabletId, m.clusterVersion, m.pitrGeneration, key.counter)
  }

  /**
   The upsert half of installing a write; a row of another kind does not decode, and a counter it does not
   know is ignored.
   */
  function ApplyPut(m: Metadata, key: Key, row: Row): Metadata
    requires Typed(key, row)
  {
    match key
    case MemberKey(node) => m.(members := m.members[node := row.member])
    case TabletKey(id) => m.(tablets := m.tablets[id := row.tablet])
    case PolicyKey(id) => m.(policies := m.policies[id := row.policy])
    case SchemaKey(table) => m.(schemas := m.schemas[table := row.schema])
    case NodeAddrsKey(node) => m.(nodeAddrs := m.nodeAddrs[node := row.addrs])
    case NodeVersionKey(node) => m.(nodeVersions := m.nodeVersions[node := row.version])
    case NodeCapacityKey(node) => m.(nodeCapacity := m.nodeCapacity[node := row.capacity])
    case LineageKey(id) => m.(splitLineage := m.splitLineage[id := row.lineage])
    case PlacingKey(id) => m.(splitPlacing := m.splitPlacing[id := row.placing])
    case ShardKey(id, epoch) => m.(streamShards := m.streamShards[(id, epoch) := row.shard])
    case BackfillKey(id, index) => m.(indexBackfill := m.indexBackfill + {(id, index)})
    case BackupKey(backup) => m.(backups := m.backups[backup := row.backup])
    case ProgressKey(backup, id) => m.(backupProgress := m.backupProgress[(backup, id) := row.progress])
    case PitrBaseKey(backup) => m.(pitrBaseBackups := m.pitrBaseBackups + {backup})
    case RestoreKey(restore) => m.(restores := m.restores[restore := row.restore])
    case ImportKey(job) => m.(imports := m.imports[job := row.job])
    case CounterKey(NextTabletId) => m.(nextTabletId := row.n)
    case CounterKey(ClusterVersion) => m.(clusterVersion := row.n)
    case CounterKey(PitrGeneration(table)) => m.(pitrGeneration := m.pitrGeneration[table := row.n])
    case CounterKey(FormatVersion) => m
  }

  /** The tombstone half; a counter is never removed. */
  function ApplyDelete(m: Metadata, key: Key): Metadata {
    match key
    case MemberKey(node) => m.(members := m.members - {node})
    case TabletKey(id) => m.(tablets := m.tablets - {id})
    case PolicyKey(id) => m.(policies := m.policies - {id})
    case SchemaKey(table) => m.(schemas := m.schemas - {table})
    case NodeAddrsKey(node) => m.(nodeAddrs := m.nodeAddrs - {node})
    case NodeVersionKey(node) => m.(nodeVersions := m.nodeVersions - {node})
    case NodeCapacityKey(node) => m.(nodeCapacity := m.nodeCapacity - {node})
    case LineageKey(id) => m.(splitLineage := m.splitLineage - {id})
    case PlacingKey(id) => m.(splitPlacing := m.splitPlacing - {id})
    case ShardKey(id, epoch) => m.(streamShards := m.streamShards - {(id, epoch)})
    case BackfillKey(id, index) => m.(indexBackfill := m.indexBackfill - {(id, index)})
    case BackupKey(backup) => m.(backups := m.backups - {backup})
    case ProgressKey(backup, id) => m.(backupProgress := m.backupProgress - {(backup, id)})
    case PitrBaseKey(backup) => m.(pitrBaseBackups := m.pitrBaseBackups - {backup})
    case RestoreKey(restore) => m.(restores := m.restores - {restore})
    case ImportKey(job) => m.(imports := m.imports - {job})
    case CounterKey(_) => m
  }

  predicate TypedWrite(w: KeyWrite) {
    w.Put? ==> Typed(w.key, w.row)
  }

  function ApplyKeyWrite(m: Metadata, w: KeyWrite): Metadata
    requires TypedWrite(w)
  {
    match w
    case Put(key, row) => ApplyPut(m, key, row)
    case Delete(key) => ApplyDelete(m, key)
  }

  predicate AllTyped(writes: seq<KeyWrite>) {
    forall i :: 0 <= i < |writes| ==> TypedWrite(writes[i])
  }

  function Fold(m: Metadata, writes: seq<KeyWrite>): Metadata
    requires AllTyped(writes)
  {
    if writes == [] then m else ApplyKeyWrite(Fold(m, writes[..|writes| - 1]), writes[|writes| - 1])
  }

  // --- A write is its key's new row -----------------------------------------------------------------------

  /** What a write says of its own key. */
  function Written(w: KeyWrite): Option<Row> {
    match w
    case Put(_, row) => Some(row)
    case Delete(_) => None
  }

  /** A counter cannot be removed, and the format version is no part of the metadata. */
  predicate Effective(w: KeyWrite) {
    TypedWrite(w) && (w.Delete? ==> !w.key.CounterKey?) && w.key != CounterKey(FormatVersion)
  }

  lemma PutNode(m: Metadata, key: Key, row: Row, other: Key)
    requires Typed(key, row) && NodeKey(key)
    ensures Lookup(ApplyPut(m, key, row), other) == if other == key then Some(row) else Lookup(m, other)
  {
  }

  lemma PutTablet(m: Metadata, key: Key, row: Row, other: Key)
    requires Typed(key, row) && OfTablet(key)
    ensures Lookup(ApplyPut(m, key, row), other) == if other == key then Some(row) else Lookup(m, other)
  {
  }

  lemma PutTable(m: Metadata, key: Key, row: Row, other: Key)
    requires Typed(key, row) && OfTable(key)
    ensures Lookup(ApplyPut(m, key, row), other) == if other == key then Some(row) else Lookup(m, other)
  {
  }

  lemma PutBackup(m: Metadata, key: Key, row: Row, other: Key)
    requires Typed(key, row) && OfBackup(key)
    ensures Lookup(ApplyPut(m, key, row), other) == if other == key then Some(row) else Lookup(m, other)
  {
  }

  lemma PutJob(m: Metadata, key: Key, row: Row, other: Key)
    requires Typed(key, row) && OfJob(key)
    ensures Lookup(ApplyPut(m, key, row), other) == if other == key then Some(row) else Lookup(m, other)
  {
  }

  lemma GenerationRow(next: nat, version: nat, generations: map<TableName, nat>, table: TableName, n: nat,
                      counter: Counter)
    ensures CounterLookup(next, version, generations[table := n], counter)
            == if counter == PitrGeneration(table) then Some(Count(n))
               else CounterLookup(next, version, generations, counter)
  {
    match counter
    case PitrGeneration(other) =>
    case _ =>
  }

  lemma PutGeneration(m: Metadata, table: TableName, n: nat, other: Key)
    ensures Lookup(ApplyPut(m, CounterKey(PitrGeneration(table)), Count(n)), other)
            == if other == CounterKey(PitrGeneration(table)) then Some(Count(n)) else Lookup(m, other)
  {
    if other.CounterKey? {
      GenerationRow(m.nextTabletId, m.clusterVersion, m.pitrGeneration, table, n, other.counter);
    }
  }

  lemma PutCounter(m: Metadata, counter: Counter, n: nat, other: Key)
    requires counter != FormatVersion
    ensures Lookup(ApplyPut(m, CounterKey(counter), Count(n)), other)
            == if other == CounterKey(counter) then Some(Count(n)) else Lookup(m, other)
  {
    if counter.PitrGeneration? {
      PutGeneration(m, counter.table, n, other);
    }
  }

  lemma DeleteNode(m: Metadata, key: Key, other: Key)
    requires NodeKey(key)
    ensures Lookup(ApplyDelete(m, key), other) == if other == key then None else Lookup(m, other)
  {
  }

  lemma DeleteTablet(m: Metadata, key: Key, other: Key)
    requires OfTablet(key)
    ensures Lookup(ApplyDelete(m, key), other) == if other == key then None else Lookup(m, other)
  {
  }

  lemma DeleteTable(m: Metadata, key: Key, other: Key)
    requires OfTable(key)
    ensures Lookup(ApplyDelete(m, key), other) == if other == key then None else Lookup(m, other)
  {
  }

  lemma DeleteBackup(m: Metadata, key: Key, other: Key)
    requires OfBackup(key)
    ensures Lookup(ApplyDelete(m, key), other) == if other == key then None else Lookup(m, other)
  {
    match key
    case BackupKey(_) =>
    case ProgressKey(_, _) =>
    case PitrBaseKey(_) =>
  }

  lemma DeleteJob(m: Metadata, key: Key, other: Key)
    requires OfJob(key)
    ensures Lookup(ApplyDelete(m, key), other) == if other == key then None else Lookup(m, other)
  {
    match key
    case RestoreKey(_) =>
    case ImportKey(_) =>
  }

  /** An effective write sets its own key's row and no other. */
  lemma WriteSetsItsKey(m: Metadata, w: KeyWrite, key: Key)
    requires Effective(w)
    ensures Lookup(ApplyKeyWrite(m, w), key) == if key == w.key then Written(w) else Lookup(m, key)
  {
    if w.Put? {
      if NodeKey(w.key) {
        PutNode(m, w.key, w.row, key);
      } else if OfTablet(w.key) {
        PutTablet(m, w.key, w.row, key);
      } else if OfTable(w.key) {
        PutTable(m, w.key, w.row, key);
      } else if OfBackup(w.key) {
        PutBackup(m, w.key, w.row, key);
      } else if OfJob(w.key) {
        PutJob(m, w.key, w.row, key);
      } else if w.key.CounterKey? {
        PutCounter(m, w.key.counter, w.row.n, key);
      }
    } else {
      if NodeKey(w.key) {
        DeleteNode(m, w.key, key);
      } else if OfTablet(w.key) {
        DeleteTablet(m, w.key, key);
      } else if OfTable(w.key) {
        DeleteTable(m, w.key, key);
      } else if OfBackup(w.key) {
        DeleteBackup(m, w.key, key);
      } else if OfJob(w.key) {
        DeleteJob(m, w.key, key);
      }
    }
  }

  ghost predicate SameRows(a: Metadata, b: Metadata) {
    forall key :: Lookup(a, key) == Lookup(b, key)
  }

  lemma SameMembers(a: Metadata, b: Metadata)
    requires SameRows(a, b)
    ensures a.members == b.members
  {
    forall x: NodeId
      ensures x in a.members <==> x in b.members
      ensures x in a.members ==> a.members[x] == b.members[x]
    {
      assert Lookup(a, MemberKey(x)) == Lookup(b, MemberKey(x));
    }
  }

  lemma SameAddrs(a: Metadata, b: Metadata)
    requires SameRows(a, b)
    ensures a.nodeAddrs == b.nodeAddrs
  {
    forall x: NodeId
      ensures x in a.nodeAddrs <==> x in b.nodeAddrs
      ensures x in a.nodeAddrs ==> a.nodeAddrs[x] == b.nodeAddrs[x]
    {
      assert Lookup(a, NodeAddrsKey(x)) == Lookup(b, NodeAddrsKey(x));
    }
  }

  lemma SameVersions(a: Metadata, b: Metadata)
    requires SameRows(a, b)
    ensures a.nodeVersions == b.nodeVersions
  {
    forall x: NodeId
      ensures x in a.nodeVersions <==> x in b.nodeVersions
      ensures x in a.nodeVersions ==> a.nodeVersions[x] == b.nodeVersions[x]
    {
      assert Lookup(a, NodeVersionKey(x)) == Lookup(b, NodeVersionKey(x));
    }
  }

  lemma SameCapacity(a: Metadata, b: Metadata)
    requires SameRows(a, b)
    ensures a.nodeCapacity == b.nodeCapacity
  {
    forall x: NodeId
      ensures x in a.nodeCapacity <==> x in b.nodeCapacity
      ensures x in a.nodeCapacity ==> a.nodeCapacity[x] == b.nodeCapacity[x]
    {
      assert Lookup(a, NodeCapacityKey(x)) == Lookup(b, NodeCapacityKey(x));
    }
  }

  lemma SameTablets(a: Metadata, b: Metadata)
    requires SameRows(a, b)
    ensures a.tablets == b.tablets
  {
    forall x: TabletId
      ensures x in a.tablets <==> x in b.tablets
      ensures x in a.tablets ==> a.tablets[x] == b.tablets[x]
    {
      assert Lookup(a, TabletKey(x)) == Lookup(b, TabletKey(x));
    }
  }

  lemma SamePolicies(a: Metadata, b: Metadata)
    requires SameRows(a, b)
    ensures a.policies == b.policies
  {
    forall x: TabletId
      ensures x in a.policies <==> x in b.policies
      ensures x in a.policies ==> a.policies[x] == b.policies[x]
    {
      assert Lookup(a, PolicyKey(x)) == Lookup(b, PolicyKey(x));
    }
  }

  lemma SameLineage(a: Metadata, b: Metadata)
    requires SameRows(a, b)
    ensures a.splitLineage == b.splitLineage
  {
    forall x: TabletId
      ensures x in a.splitLineage <==> x in b.splitLineage
      ensures x in a.splitLineage ==> a.splitLineage[x] == b.splitLineage[x]
    {
      assert Lookup(a, LineageKey(x)) == Lookup(b, LineageKey(x));
    }
  }

  lemma SamePlacing(a: Metadata, b: Metadata)
    requires SameRows(a, b)
    ensures a.splitPlacing == b.splitPlacing
  {
    forall x: TabletId
      ensures x in a.splitPlacing <==> x in b.splitPlacing
      ensures x in a.splitPlacing ==> a.splitPlacing[x] == b.splitPlacing[x]
    {
      assert Lookup(a, PlacingKey(x)) == Lookup(b, PlacingKey(x));
    }
  }

  lemma SameSchemas(a: Metadata, b: Metadata)
    requires SameRows(a, b)
    ensures a.schemas == b.schemas
  {
    forall x: TableName
      ensures x in a.schemas <==> x in b.schemas
      ensures x in a.schemas ==> a.schemas[x] == b.schemas[x]
    {
      assert Lookup(a, SchemaKey(x)) == Lookup(b, SchemaKey(x));
    }
  }

  lemma SameShards(a: Metadata, b: Metadata)
    requires SameRows(a, b)
    ensures a.streamShards == b.streamShards
  {
    forall x: (TabletId, nat)
      ensures x in a.streamShards <==> x in b.streamShards
      ensures x in a.streamShards ==> a.streamShards[x] == b.streamShards[x]
    {
      assert Lookup(a, ShardKey(x.0, x.1)) == Lookup(b, ShardKey(x.0, x.1));
    }
  }

  lemma SameGenerations(a: Metadata, b: Metadata)
    requires SameRows(a, b)
    ensures a.pitrGeneration == b.pitrGeneration
  {
    forall x: TableName
      ensures x in a.pitrGeneration <==> x in b.pitrGeneration
      ensures x in a.pitrGeneration ==> a.pitrGeneration[x] == b.pitrGeneration[x]
    {
      assert Lookup(a, CounterKey(PitrGeneration(x))) == Lookup(b, CounterKey(PitrGeneration(x)));
    }
  }

  lemma SameBackups(a: Metadata, b: Metadata)
    requires SameRows(a, b)
    ensures a.backups == b.backups
  {
    forall x: BackupId
      ensures x in a.backups <==> x in b.backups
      ensures x in a.backups ==> a.backups[x] == b.backups[x]
    {
      assert Lookup(a, BackupKey(x)) == Lookup(b, BackupKey(x));
    }
  }

  lemma SameProgress(a: Metadata, b: Metadata)
    requires SameRows(a, b)
    ensures a.backupProgress == b.backupProgress
  {
    forall x: (BackupId, TabletId)
      ensures x in a.backupProgress <==> x in b.backupProgress
      ensures x in a.backupProgress ==> a.backupProgress[x] == b.backupProgress[x]
    {
      assert Lookup(a, ProgressKey(x.0, x.1)) == Lookup(b, ProgressKey(x.0, x.1));
    }
  }

  lemma SameRestores(a: Metadata, b: Metadata)
    requires SameRows(a, b)
    ensures a.restores == b.restores
  {
    forall x: string
      ensures x in a.restores <==> x in b.restores
      ensures x in a.restores ==> a.restores[x] == b.restores[x]
    {
      assert Lookup(a, RestoreKey(x)) == Lookup(b, RestoreKey(x));
    }
  }

  lemma SameImports(a: Metadata, b: Metadata)
    requires SameRows(a, b)
    ensures a.imports == b.imports
  {
    forall x: string
      ensures x in a.imports <==> x in b.imports
      ensures x in a.imports ==> a.imports[x] == b.imports[x]
    {
      assert Lookup(a, ImportKey(x)) == Lookup(b, ImportKey(x));
    }
  }

  lemma SameBackfill(a: Metadata, b: Metadata)
    requires SameRows(a, b)
    ensures a.indexBackfill == b.indexBackfill
  {
    forall x: (TabletId, string)
      ensures x in a.indexBackfill <==> x in b.indexBackfill
    {
      assert Lookup(a, BackfillKey(x.0, x.1)) == Lookup(b, BackfillKey(x.0, x.1));
    }
  }

  lemma SameBases(a: Metadata, b: Metadata)
    requires SameRows(a, b)
    ensures a.pitrBaseBackups == b.pitrBaseBackups
  {
    forall x: BackupId
      ensures x in a.pitrBaseBackups <==> x in b.pitrBaseBackups
    {
      assert Lookup(a, PitrBaseKey(x)) == Lookup(b, PitrBaseKey(x));
    }
  }

  /** Two metadata values with the same rows are the same. */
  lemma SameRowsSameMetadata(a: Metadata, b: Metadata)
    requires SameRows(a, b)
    ensures a == b
  {
    SameMembers(a, b);
    SameAddrs(a, b);
    SameVersions(a, b);
    SameCapacity(a, b);
    SameTablets(a, b);
    SamePolicies(a, b);
    SameLineage(a, b);
    SamePlacing(a, b);
    SameSchemas(a, b);
    SameShards(a, b);
    SameGenerations(a, b);
    SameBackups(a, b);
    SameProgress(a, b);
    SameRestores(a, b);
    SameImports(a, b);
    SameBackfill(a, b);
    SameBases(a, b);
    assert Lookup(a, CounterKey(NextTabletId)) == Lookup(b, CounterKey(NextTabletId));
    assert Lookup(a, CounterKey(ClusterVersion)) == Lookup(b, CounterKey(ClusterVersion));
  }
}

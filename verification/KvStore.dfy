/** The three stores behind the vault as one value, and what each KV operation does to it. */
module KvStore {
  import opened Wrappers
  import opened Keys
  import opened Rows
  import opened Replay

  // `shardOf` is fixed by the configuration: Keys.PartitionNumber for some CRC and partition count.
  datatype State = State(
    mode: KvState,
    redis: map<string, Row>,
    streams: Streams,
    pg: Table,
    shardOf: PartitionKey -> nat)

  // ----- what the stores say about one key -----

  datatype Cell = Cell(cached: Option<Row>, pending: seq<Query>, stored: Option<Row>)
  {
    // The row once every pending entry is replayed.
    function Truth(): Option<Row> {
      ReplayRow(stored, pending)
    }
  }

  function At(s: State, k: PartitionKey): Cell {
    Cell(Lookup(s.redis, KeyString(k)), Pending(Stream(s.streams, s.shardOf(k)), k), Lookup(s.pg, k))
  }

  // ----- single Redis commands and SQL statements -----

  function SetNx(s: State, k: PartitionKey, row: Row): (State, bool) {
    if KeyString(k) in s.redis then (s, false)
    else (s.(redis := s.redis[KeyString(k) := row]), true)
  }

  function HSet(s: State, k: PartitionKey, row: Row): State {
    s.(redis := s.redis[KeyString(k) := row])
  }

  function HDel(s: State, k: PartitionKey): (State, nat) {
    (s.(redis := s.redis - {KeyString(k)}), if KeyString(k) in s.redis then 1 else 0)
  }

  function Push(s: State, k: PartitionKey, q: Query): State {
    s.(streams := s.streams[s.shardOf(k) := Stream(s.streams, s.shardOf(k)) + [q]])
  }

  predicate Violates(pg: Table, row: Row) {
    KeyOf(row) in pg || exists k :: k in pg && Clash(pg[k], row)
  }

  function PgInsert(s: State, row: Row): (State, Result<Row>) {
    if Violates(s.pg, row) then (s, Err(Duplicate))
    else (s.(pg := s.pg[KeyOf(row) := row]), Ok(row))
  }

  function PgFind(s: State, k: PartitionKey): Result<Row> {
    if k in s.pg then Ok(s.pg[k]) else Err(NotFound)
  }

  function PgUpdate(s: State, k: PartitionKey, u: VaultUpdate): (State, Result<Row>) {
    if k !in s.pg then (s, Err(NotFound))
    else
      var row := SqlUpdate(u, s.pg[k]);
      (s.(pg := s.pg[k := row]), Ok(row))
  }

  function PgDelete(s: State, k: PartitionKey): (State, nat) {
    (s.(pg := s.pg - {k}), if k in s.pg then 1 else 0)
  }

  // ----- routing -----

  function FindScheme(mode: KvState): StorageScheme {
    match mode
    case Disabled => PostgresOnly
    case Enabled | SoftKill => RedisKv
  }

  function InsertScheme(mode: KvState): StorageScheme {
    match mode
    case Disabled | SoftKill => PostgresOnly
    case Enabled => RedisKv
  }

  // In SoftKill a mutation follows the row: to Redis while it is still there.
  function MutateScheme(mode: KvState, cached: bool): StorageScheme {
    match mode
    case Disabled => PostgresOnly
    case Enabled => RedisKv
    case SoftKill => if cached then RedisKv else PostgresOnly
  }

  function SchemeFor(s: State, k: PartitionKey): StorageScheme {
    MutateScheme(s.mode, KeyString(k) in s.redis)
  }

  // ----- resource operations -----

  function FindById(s: State, k: PartitionKey): Result<Row> {
    match FindScheme(s.mode)
    case PostgresOnly => PgFind(s, k)
    case RedisKv => if KeyString(k) in s.redis then Ok(s.redis[KeyString(k)]) else PgFind(s, k)
  }

  function KvInsert(s: State, row: Row): (State, Result<Row>) {
    var (s', set_) := SetNx(s, KeyOf(row), row);
    if set_ then (Push(s', KeyOf(row), Insert(row)), Ok(row)) else (s', Err(Duplicate))
  }

  function InsertDirect(s: State, new_: Row): (State, Result<Row>) {
    var row := Stamp(new_, InsertScheme(s.mode));
    match InsertScheme(s.mode)
    case PostgresOnly => PgInsert(s, row)
    case RedisKv => KvInsert(s, row)
  }

  function StampUpdate(s: State, k: PartitionKey, u: VaultUpdate): VaultUpdate {
    u.(updatedBy := SchemeFor(s, k))
  }

  function UpdateById(s: State, k: PartitionKey, u: VaultUpdate): (State, Result<Row>) {
    var update := StampUpdate(s, k, u);
    match SchemeFor(s, k)
    case PostgresOnly => PgUpdate(s, k, update)
    case RedisKv =>
      match FindById(s, k)
      case Err(e) => (s, Err(e))
      case Ok(current) =>
        var row := FromUpdate(update, current);
        (Push(HSet(s, k, row), k, Update(k, update)), Ok(row))
  }

  function DeleteById(s: State, k: PartitionKey): (State, nat) {
    match SchemeFor(s, k)
    case PostgresOnly => PgDelete(s, k)
    case RedisKv =>
      var (s', n) := HDel(s, k);
      (Push(s', k, Delete(k)), n)
  }

  // ----- lockers: rows found through a second table -----

  function LookupId(merchantId: string, customerId: string, hashId: string): string {
    "locker_" + (merchantId + "_" + (customerId + "_" + hashId))
  }

  function LookupIdOf(locker: Row): string
    requires locker.LockerRow?
  {
    LookupId(locker.merchantId, locker.customerId, locker.lockerHashId)
  }

  function LookupFor(locker: Row): Row
    requires locker.LockerRow?
  {
    LookupRow(LookupIdOf(locker), LookupIdOf(locker), KeyString(KeyOf(locker)), "locker", Some(RedisKv))
  }

  // The Redis path writes the reverse lookup first; any failure there is a backend error.
  function InsertLocker(s: State, new_: Row): (State, Result<Row>)
    requires new_.LockerRow?
  {
    var row := Stamp(new_, InsertScheme(s.mode));
    match InsertScheme(s.mode)
    case PostgresOnly => PgInsert(s, row)
    case RedisKv =>
      var (s', r) := InsertDirect(s, LookupFor(row));
      if r.Err? then (s', Err(Backend)) else KvInsert(s', row)
  }

  predicate HasColumns(row: Row, hashId: string, merchantId: string, customerId: string) {
    row.LockerRow? && row.lockerHashId == hashId && row.merchantId == merchantId && row.customerId == customerId
  }

  ghost predicate UniqueLockers(pg: Table) {
    forall k, k' :: k in pg && k' in pg && Clash(pg[k], pg[k']) ==> k == k'
  }

  // SELECT on the columns (hash_id, merchant_id, customer_id).
  ghost function PgFindByColumns(s: State, hashId: string, merchantId: string, customerId: string): Result<Row> {
    if k :| k in s.pg && HasColumns(s.pg[k], hashId, merchantId, customerId) then Ok(s.pg[k]) else Err(NotFound)
  }

  ghost function FindByLookup(s: State, hashId: string, merchantId: string, customerId: string): Result<Row> {
    match FindScheme(s.mode)
    case PostgresOnly => PgFindByColumns(s, hashId, merchantId, customerId)
    case RedisKv =>
      match FindById(s, ReverseLookup(LookupId(merchantId, customerId, hashId)))
      case Err(NotFound) => PgFindByColumns(s, hashId, merchantId, customerId)
      case Err(_) => Err(Backend)
      case Ok(lookup) =>
        if lookup.LookupRow? && lookup.partitionKey in s.redis then Ok(s.redis[lookup.partitionKey])
        else PgFindByColumns(s, hashId, merchantId, customerId)
  }

  function DeleteLocker(s: State, k: PartitionKey): (State, nat) {
    var found := FindById(s, k);
    var (s', n) := DeleteById(s, k);
    if found.Ok? && found.value.LockerRow?
    then (DeleteById(s', ReverseLookup(LookupIdOf(found.value))).0, n)
    else (s', n)
  }

  // ----- how the commands act on one key, and on the others -----

  lemma PushAt(s: State, k: PartitionKey, q: Query, k': PartitionKey)
    requires QueryKey(q) == k
    ensures At(Push(s, k, q), k') ==
            if k' == k then At(s, k').(pending := At(s, k').pending + [q]) else At(s, k')
  {
    PendingAppend(Stream(s.streams, s.shardOf(k)), q, k');
  }

  lemma SetAt(s: State, k: PartitionKey, row: Row, k': PartitionKey)
    requires Apart(k, k')
    ensures At(HSet(s, k, row), k') ==
            if k' == k then At(s, k').(cached := Some(row)) else At(s, k')
  {
  }

  lemma DelAt(s: State, k: PartitionKey, k': PartitionKey)
    requires Apart(k, k')
    ensures At(HDel(s, k).0, k') == if k' == k then At(s, k').(cached := None) else At(s, k')
  {
  }

  // The shards the entries sit in, and the marks they carry, for every state the KV path builds.
  ghost predicate Orderly(s: State) {
    && WellPlaced(s.streams, s.shardOf)
    && (forall i, q :: q in Stream(s.streams, i) ==> KvQuery(q))
    && (forall k :: k in s.pg ==> KeyOf(s.pg[k]) == k)
  }

  lemma PushOrderly(s: State, k: PartitionKey, q: Query)
    requires Orderly(s) && QueryKey(q) == k && KvQuery(q)
    ensures Orderly(Push(s, k, q))
  {
    forall i, r | r in Stream(Push(s, k, q).streams, i)
      ensures s.shardOf(QueryKey(r)) == i && KvQuery(r)
    {
      assert r in Stream(s.streams, i) || r == q;
    }
  }
}

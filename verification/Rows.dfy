/** Table rows, drainer statements, and what one statement does to one row. */
module Rows {
  import opened Wrappers
  import opened Keys
  import opened Hex

  datatype StorageScheme = PostgresOnly | RedisKv

  datatype KvState = Disabled | Enabled | SoftKill

  // Business columns of the five tables. `updatedBy` is null for rows older than that column.
  datatype Row =
    | FingerprintRow(fingerprintHash: seq<byte>, fingerprintId: string, updatedBy: Option<StorageScheme>)
    | HashRow(hashId: string, dataHash: seq<byte>, createdAt: int, updatedBy: Option<StorageScheme>)
    | LockerRow(lockerId: string, merchantId: string, customerId: string, encData: seq<byte>,
                createdAt: int, lockerHashId: string, ttl: Option<int>, updatedBy: Option<StorageScheme>)
    | LookupRow(lookupId: string, secondaryKey: string, partitionKey: string, source: string,
                updatedBy: Option<StorageScheme>)
    | VaultRow(entityId: string, vaultId: string, encryptedData: seq<byte>,
               createdAt: int, expiresAt: Option<int>, updatedBy: Option<StorageScheme>)

  datatype VaultUpdate = VaultUpdate(encryptedData: seq<byte>, expiresAt: Option<int>, updatedBy: StorageScheme)

  function KeyOf(row: Row): PartitionKey {
    match row
    case FingerprintRow(h, _, _) => Fingerprint(h)
    case HashRow(_, h, _, _) => HashTable(h)
    case LockerRow(l, m, c, _, _, _, _, _) => Locker(m, c, l)
    case LookupRow(id, _, _, _, _) => ReverseLookup(id)
    case VaultRow(e, v, _, _, _, _) => Vault(e, v)
  }

  // The mark an insert carries: which backend was chosen for it.
  function Stamp(row: Row, scheme: StorageScheme): Row {
    row.(updatedBy := Some(scheme))
  }

  // The row without that mark.
  function Business(row: Row): Row {
    row.(updatedBy := None)
  }

  // The merge done on the row held in Redis: the update's expiry replaces the row's, absent or not.
  function FromUpdate(u: VaultUpdate, row: Row): Row {
    if row.VaultRow?
    then row.(encryptedData := u.encryptedData, expiresAt := u.expiresAt, updatedBy := Some(u.updatedBy))
    else row
  }

  // The UPDATE statement: an absent expiry leaves the column alone.
  function SqlUpdate(u: VaultUpdate, row: Row): Row {
    if row.VaultRow?
    then row.(encryptedData := u.encryptedData,
              expiresAt := if u.expiresAt.Some? then u.expiresAt else row.expiresAt,
              updatedBy := Some(u.updatedBy))
    else row
  }

  predicate MergeAgrees(u: VaultUpdate, row: Row) {
    u.expiresAt.Some? || (row.VaultRow? && row.expiresAt.None?)
  }

  lemma MergeAgreesExactly(u: VaultUpdate, row: Row)
    requires row.VaultRow?
    ensures FromUpdate(u, row) == SqlUpdate(u, row) <==> MergeAgrees(u, row)
  {
  }

  datatype Query = Insert(row: Row) | Update(key: PartitionKey, update: VaultUpdate) | Delete(key: PartitionKey)

  function QueryKey(q: Query): PartitionKey {
    match q
    case Insert(row) => KeyOf(row)
    case Update(k, _) => k
    case Delete(k) => k
  }

  // An INSERT onto an existing key, and an UPDATE or DELETE of an absent one, change nothing.
  function Effect(o: Option<Row>, q: Query): Option<Row> {
    match q
    case Insert(row) => if o.Some? then o else Some(row)
    case Update(_, u) => if o.Some? then Some(SqlUpdate(u, o.value)) else None
    case Delete(_) => None
  }

  // Entries the KV path writes: marked RedisKv, with updates on vault rows only.
  predicate KvQuery(q: Query) {
    match q
    case Insert(row) => row.updatedBy == Some(RedisKv)
    case Update(k, u) => k.Vault? && u.updatedBy == RedisKv
    case Delete(_) => true
  }
}

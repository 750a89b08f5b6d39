/** The KV helpers and the compositions over them, as they run against the shared stores. */
module KvResource {
  import opened Wrappers
  import opened Keys
  import opened Rows
  import opened Replay
  import opened KvStore
  import opened Refinement
  import opened Runs
  import opened ReverseLookups
  import opened Indexes

  class Storage {
    var mode: KvState
    var redis: map<string, Row>
    var streams: Streams
    var pg: Table
    const shardOf: PartitionKey -> nat

    function View(): State
      reads this
    {
      State(mode, redis, streams, pg, shardOf)
    }

    constructor (mode: KvState, pg: Table, shardOf: PartitionKey -> nat)
      ensures View() == State(mode, map[], map[], pg, shardOf)
    {
      this.mode := mode;
      this.redis := map[];
      this.streams := map[];
      this.pg := pg;
      this.shardOf := shardOf;
    }

    // ----- the KV wrapper: Redis first, then the drainer stream -----

    // The entry waits behind all earlier entries of its key; no other key sees it.
    method PushToDrainerStream(k: PartitionKey, q: Query)
      requires QueryKey(q) == k
      modifies this`streams
      ensures View() == Push(old(View()), k, q)
      ensures forall k' :: At(View(), k') == if k' == k then old(At(View(), k)).(pending := old(At(View(), k)).pending + [q])
                                             else old(At(View(), k'))
    {
      hide KeyString, Pending;
      ghost var s := View();
      var shard := shardOf(k);
      streams := streams[shard := Stream(streams, shard) + [q]];
      forall k'
        ensures At(Push(s, k, q), k') == if k' == k then At(s, k).(pending := At(s, k).pending + [q]) else At(s, k')
      {
        PushAt(s, k, q, k');
      }
    }

    method HGetRow(field: string) returns (row: Option<Row>)
      ensures row == Lookup(redis, field)
    {
      if field in redis { row := Some(redis[field]); } else { row := None; }
    }

    // The entry is appended only by the caller whose HSETNX set the field.
    method HSetNx(k: PartitionKey, row: Row) returns (keySet: bool)
      requires KeyOf(row) == k
      modifies this
      ensures keySet == (KeyString(k) !in old(redis))
      ensures keySet ==> View() == Push(HSet(old(View()), k, row), k, Insert(row))
      ensures !keySet ==> View() == old(View())
    {
      var field := KeyString(k);
      if field in redis {
        keySet := false;
      } else {
        redis := redis[field := row];
        keySet := true;
        PushToDrainerStream(k, Insert(row));
      }
    }

    method HSetRow(k: PartitionKey, row: Row, q: Query)
      requires QueryKey(q) == k
      modifies this
      ensures View() == Push(HSet(old(View()), k, row), k, q)
    {
      redis := redis[KeyString(k) := row];
      PushToDrainerStream(k, q);
    }

    method HDelRow(k: PartitionKey, q: Query) returns (n: nat)
      requires QueryKey(q) == k
      modifies this
      ensures (View(), n) == (Push(HDel(old(View()), k).0, k, q), HDel(old(View()), k).1)
    {
      n := if KeyString(k) in redis then 1 else 0;
      redis := redis - {KeyString(k)};
      PushToDrainerStream(k, q);
    }

    // ----- resources addressed by primary key -----

    // On a sound key the answer is the row the key will end up with, exactly outside the delete window.
    method Find(k: PartitionKey) returns (r: Result<Row>)
      ensures r == FindById(View(), k)
      ensures Sound(View(), k) ==> (r == PlainFind(TruthOf(View(), k)) <==> !DeleteWindow(At(View(), k)))
    {
      if Sound(View(), k) { FindRefines(View(), k); }
      if FindScheme(mode) == RedisKv {
        var cached := HGetRow(KeyString(k));
        if cached.Some? { return Ok(cached.value); }
      }
      r := PgFind(View(), k);
    }

    // On a sound key the row goes in, or is refused, as on a plain table, exactly where the guard holds; other
    // keys see nothing.
    method InsertRow(new_: Row) returns (r: Result<Row>)
      modifies this
      ensures (View(), r) == InsertDirect(old(View()), new_)
      ensures old(Orderly(View()) && Sound(View(), KeyOf(new_))) ==>
                ((TruthOf(View(), KeyOf(new_)), r)
                 == PlainInsert(old(TruthOf(View(), KeyOf(new_))), Stamp(new_, InsertScheme(mode)))
                 <==> old(InsertGuard(View(), new_)))
      ensures forall k :: Apart(KeyOf(new_), k) && k != KeyOf(new_) ==> At(View(), k) == old(At(View(), k))
      ensures r == Ok(new_.(updatedBy := Some(Mark(mode)))) || (r == Err(Duplicate) && View() == old(View()))
      ensures r.Err? <==> if mode.Enabled? then KeyString(KeyOf(new_)) in old(redis) else old(Taken(pg, new_))
    {
      hide KeyString, Pending, ReplayRow, Violates;
      ghost var s := View();
      TakenIsViolated(s, new_);
      if Orderly(s) && Sound(s, KeyOf(new_)) { InsertRefines(s, new_); }
      forall k | Apart(KeyOf(new_), k) && k != KeyOf(new_) ensures At(InsertDirect(s, new_).0, k) == At(s, k) {
        InsertEffect(s, new_, k);
      }
      var scheme := InsertScheme(mode);
      var row := Stamp(new_, scheme);
      if scheme == PostgresOnly {
        if Violates(pg, row) { return Err(Duplicate); }
        pg := pg[KeyOf(row) := row];
        return Ok(row);
      }
      var keySet := HSetNx(KeyOf(row), row);
      r := if keySet then Ok(row) else Err(Duplicate);
    }

    // On a sound key the row is merged as on a plain table exactly where the guard holds; other keys see nothing.
    method Update(k: PartitionKey, u: VaultUpdate) returns (r: Result<Row>)
      modifies this
      ensures (View(), r) == UpdateById(old(View()), k, u)
      ensures old(Orderly(View()) && Sound(View(), k)) && k.Vault? ==>
                ((TruthOf(View(), k), r) == PlainUpdate(old(TruthOf(View(), k)), StampUpdate(old(View()), k, u))
                 <==> old(UpdateGuard(View(), k, u)))
      ensures forall k' :: Apart(k, k') && k' != k ==> At(View(), k') == old(At(View(), k'))
      ensures old(Orderly(View()) && Sound(View(), k) && UpdateGuard(View(), k, u)) && k.Vault? ==>
                match old(TruthOf(View(), k))
                case None => r == Err(NotFound)
                case Some(was) =>
                  && was.VaultRow? && TruthOf(View(), k) == Some(was.(
                       encryptedData := u.encryptedData,
                       expiresAt := if u.expiresAt.Some? then u.expiresAt else was.expiresAt,
                       updatedBy := Some(if old(ByRedis(k)) then RedisKv else PostgresOnly)))
                  && r.Ok? && Some(r.value) == TruthOf(View(), k)
    {
      hide Pending, ReplayRow;
      ghost var s := View();
      if Orderly(s) { TruthKeyed(s, k); }
      if Orderly(s) && Sound(s, k) && k.Vault? { UpdateRefines(s, k, u); }
      forall k' | Apart(k, k') && k' != k ensures At(UpdateById(s, k, u).0, k') == At(s, k') { UpdateEffect(s, k, u, k'); }
      var cached := None;
      if mode != Disabled { cached := HGetRow(KeyString(k)); }
      var scheme := MutateScheme(mode, cached.Some?);
      var update := u.(updatedBy := scheme);
      if scheme == PostgresOnly {
        if k !in pg { return Err(NotFound); }
        pg := pg[k := SqlUpdate(update, pg[k])];
        return Ok(pg[k]);
      }
      var current;
      if mode == SoftKill && cached.Some? { current := Ok(cached.value); } else { current := Find(k); }
      if current.Err? { return current; }
      var row := FromUpdate(update, current.value);
      HSetRow(k, row, Query.Update(k, update));
      r := Ok(row);
    }

    // A change goes to Redis while KV is enabled, and in SoftKill while the row is still there.
    predicate ByRedis(k: PartitionKey)
      reads this
    {
      mode.Enabled? || (mode.SoftKill? && KeyString(k) in redis)
    }

    // A sound key has no row afterwards; the count is of the rows there where the delete went, so it is right
    // exactly where its guard holds; other keys see nothing.
    method DeleteRow(k: PartitionKey) returns (n: nat)
      modifies this
      ensures n == if old(if ByRedis(k) then KeyString(k) in redis else k in pg) then 1 else 0
      ensures (View(), n) == DeleteById(old(View()), k)
      ensures old(Sound(View(), k)) ==>
                && TruthOf(View(), k) == None && Sound(View(), k)
                && (n == (if old(TruthOf(View(), k)).Some? then 1 else 0) <==> old(CountGuard(View(), k)))
      ensures forall k' :: Apart(k, k') && k' != k ==> At(View(), k') == old(At(View(), k'))
    {
      hide Pending, ReplayRow;
      ghost var s := View();
      if Sound(s, k) { DeleteRefines(s, k); }
      forall k' | Apart(k, k') && k' != k ensures At(DeleteById(s, k).0, k') == At(s, k') { DeleteEffect(s, k, k'); }
      if MutateScheme(mode, KeyString(k) in redis) == PostgresOnly {
        n := if k in pg then 1 else 0;
        pg := pg - {k};
      } else {
        n := HDelRow(k, Delete(k));
      }
    }

    // ----- lockers -----

    // A locker goes in unless it is refused; its lookup then leads to it, and every locker stays findable.
    method AddLocker(ghost keys: iset<PartitionKey>, new_: Row) returns (r: Result<Row>)
      requires new_.LockerRow?
      modifies this
      ensures (View(), r) == InsertLocker(old(View()), new_)
      ensures old(LockerInv(View(), keys) && LockerAllowed(View(), keys, LockerAction.AddLocker(new_))) ==>
                && LockerInv(View(), keys)
                && (r.Ok? <==> !old(AddRefused(View(), new_)))
                && (r.Ok? ==> r.value == Stamp(new_, InsertScheme(mode)) && TruthOf(View(), KeyOf(new_)) == Some(r.value))
                && (r.Err? ==> View() == old(View()))
    {
      hide KeyString, LookupId, LockerInv, LockerAllowed, TruthOf, AddRefused;
      ghost var s := View();
      if LockerInv(s, keys) && LockerAllowed(s, keys, LockerAction.AddLocker(new_)) { AddPromise(s, keys, new_); }
      if InsertScheme(mode) == RedisKv {
        var lookup := InsertRow(LookupFor(Stamp(new_, RedisKv)));
        if lookup.Err? { return Err(Backend); }
      }
      r := InsertRow(new_);
    }

    method SelectByColumns(hashId: string, merchantId: string, customerId: string) returns (r: Result<Row>)
      requires UniqueLockers(pg)
      ensures r == PgFindByColumns(View(), hashId, merchantId, customerId)
    {
      if k :| k in pg && HasColumns(pg[k], hashId, merchantId, customerId) {
        ghost var k' :| k' in pg && HasColumns(pg[k'], hashId, merchantId, customerId)
                        && PgFindByColumns(View(), hashId, merchantId, customerId) == Ok(pg[k']);
        assert Clash(pg[k], pg[k']);
        return Ok(pg[k]);
      }
      r := Err(NotFound);
    }

    // Where every locker is findable, the answer is the locker with these columns, or none if there is none,
    // unless and only unless the lookup leads to a live row with other columns.
    method FindLocker(ghost keys: iset<PartitionKey>, hashId: string, merchantId: string, customerId: string)
      returns (r: Result<Row>)
      requires UniqueLockers(pg)
      ensures r == FindByLookup(View(), hashId, merchantId, customerId)
      ensures LockerInv(View(), keys) && LookupKey(merchantId, customerId, hashId) in keys
              && NoUndrainedDelete(View(), hashId, merchantId, customerId) ==>
                (RightAnswer(View(), hashId, merchantId, customerId, r) <==> !Misled(View(), hashId, merchantId, customerId))
    {
      hide LockerInv, NoUndrainedDelete, RightAnswer, Misled, LookupId, TruthOf;
      if LockerInv(View(), keys) && LookupKey(merchantId, customerId, hashId) in keys
        && NoUndrainedDelete(View(), hashId, merchantId, customerId) {
        FindByLookupRight(View(), keys, hashId, merchantId, customerId);
      }
      if FindScheme(mode) == RedisKv {
        var lookup := Find(ReverseLookup(LookupId(merchantId, customerId, hashId)));
        match lookup {
          case Err(NotFound) =>
          case Err(_) => return Err(Backend);
          case Ok(row) =>
            if row.LookupRow? {
              var cached := HGetRow(row.partitionKey);
              if cached.Some? { return Ok(cached.value); }
            }
        }
      }
      r := SelectByColumns(hashId, merchantId, customerId);
    }

    // Neither the locker nor its lookup is left; every other locker stays findable.
    method RemoveLocker(ghost keys: iset<PartitionKey>, k: PartitionKey) returns (n: nat)
      modifies this
      ensures n == if old(if ByRedis(k) then KeyString(k) in redis else k in pg) then 1 else 0
      ensures (View(), n) == DeleteLocker(old(View()), k)
      ensures old(LockerInv(View(), keys) && LockerAllowed(View(), keys, LockerAction.RemoveLocker(k))) ==>
                && LockerInv(View(), keys) && TruthOf(View(), k) == None
                && (n == (if old(TruthOf(View(), k)).Some? then 1 else 0) <==> old(CountGuard(View(), k)))
                && (old(TruthOf(View(), k)).Some? ==>
                      && old(TruthOf(View(), k)).value.LockerRow?
                      && TruthOf(View(), ReverseLookup(LookupIdOf(old(TruthOf(View(), k)).value))) == None)
    {
      hide KeyString, LookupId, LockerInv, LockerAllowed, TruthOf;
      ghost var s := View();
      if LockerInv(s, keys) && LockerAllowed(s, keys, LockerAction.RemoveLocker(k)) { RemovePromise(s, keys, k); }
      var found := Find(k);
      n := DeleteRow(k);
      if found.Ok? && found.value.LockerRow? {
        var _ := DeleteRow(ReverseLookup(LookupIdOf(found.value)));
      }
    }

    // ----- compositions -----

    // Fingerprints: find, insert, and on a duplicate find again. From a sound state outside the delete window
    // the result is the row the key has for good, and it is the caller's own exactly when there was none.
    method FindOrInsert(new_: Row) returns (r: Result<Row>)
      requires var s, k := View(), KeyOf(new_);
               Orderly(s) && Sound(s, k) && !DeleteWindow(At(s, k))
      requires At(View(), KeyOf(new_)).Truth().None? ==> InsertGuard(View(), new_)
      requires Violates(pg, new_) ==> KeyOf(new_) in pg
      modifies this
      ensures r.Ok? && TruthOf(View(), KeyOf(new_)) == Some(r.value)
      ensures r.value == if old(TruthOf(View(), KeyOf(new_))).Some?
                         then old(TruthOf(View(), KeyOf(new_))).value
                         else new_.(updatedBy := Some(Mark(mode)))
      ensures Sound(View(), KeyOf(new_)) && Orderly(View())
    {
      hide KeyString, Pending, ReplayRow, Violates;
      ghost var s, k := View(), KeyOf(new_);
      FindRefines(s, k);
      var first := Find(KeyOf(new_));
      if first.Ok? { return first; }
      InsertRefines(s, new_);
      InsertOrderly(s, new_);
      r := InsertRow(new_);
      if r == Err(Duplicate) {
        var again := Find(KeyOf(new_));
        r := if again.Ok? then again else Err(Backend);
      }
    }

    // Data hashes and vault rows: insert, and on a duplicate find. Where the insert's guard holds the
    // result is the row the key has for good.
    method InsertOrFind(new_: Row) returns (r: Result<Row>)
      requires var s, k := View(), KeyOf(new_);
               Orderly(s) && Sound(s, k) && !DeleteWindow(At(s, k)) && InsertGuard(s, new_)
      modifies this
      ensures r.Ok? && TruthOf(View(), KeyOf(new_)) == Some(r.value)
      ensures r.value == if old(TruthOf(View(), KeyOf(new_))).Some?
                         then old(TruthOf(View(), KeyOf(new_))).value
                         else new_.(updatedBy := Some(Mark(mode)))
      ensures Sound(View(), KeyOf(new_)) && Orderly(View())
    {
      hide KeyString, Pending, ReplayRow, Violates;
      InsertRefines(View(), new_);
      InsertOrderly(View(), new_);
      DuplicateKeepsState(View(), new_);
      FindRefines(View(), KeyOf(new_));
      r := InsertRow(new_);
      if r == Err(Duplicate) {
        r := Find(KeyOf(new_));
      }
    }

    // Vault overwrite: insert, and on a duplicate update. Where the two guards hold, the key ends up with the
    // caller's data whether or not it had a row before.
    method Upsert(new_: Row) returns (r: Result<Row>)
      requires new_.VaultRow?
      requires var s, k := View(), KeyOf(new_);
               Orderly(s) && Sound(s, k) && InsertGuard(s, new_)
      requires var s, k := View(), KeyOf(new_);
               TruthOf(s, k).Some? ==>
                 && !DeleteWindow(At(s, k))
                 && (SchemeFor(s, k).RedisKv? ==> new_.expiresAt.Some?
                                                  || (TruthOf(s, k).value.VaultRow? && TruthOf(s, k).value.expiresAt.None?))
      modifies this
      ensures r.Ok? && TruthOf(View(), KeyOf(new_)) == Some(r.value)
      ensures r.value.VaultRow? && r.value.encryptedData == new_.encryptedData
      ensures old(TruthOf(View(), KeyOf(new_))).None? ==> r.value == new_.(updatedBy := Some(Mark(mode)))
      ensures old(TruthOf(View(), KeyOf(new_))).Some? ==>
                var was := old(TruthOf(View(), KeyOf(new_))).value;
                && was.VaultRow? && r.value.createdAt == was.createdAt
                && r.value.entityId == was.entityId == new_.entityId && r.value.vaultId == was.vaultId == new_.vaultId
                && r.value.expiresAt == if new_.expiresAt.Some? then new_.expiresAt else was.expiresAt
      ensures Sound(View(), KeyOf(new_)) && Orderly(View())
    {
      hide KeyString, Pending, ReplayRow, Violates;
      ghost var s, k := View(), KeyOf(new_);
      TruthKeyed(s, k);
      assert TruthOf(s, k).Some? ==> UpdateGuard(s, k, UpdateFrom(new_));
      InsertRefines(s, new_);
      InsertOrderly(s, new_);
      r := InsertRow(new_);
      if r == Err(Duplicate) {
        DuplicateKeepsState(s, new_);
        UpdateRefines(s, k, UpdateFrom(new_));
        UpdateOrderly(s, k, UpdateFrom(new_));
        r := Update(KeyOf(new_), UpdateFrom(new_));
      }
    }
  }

  // The mark of a new row: where the mode sends it.
  function Mark(mode: KvState): StorageScheme {
    if mode.Enabled? then RedisKv else PostgresOnly
  }

  function UpdateFrom(new_: Row): VaultUpdate
    requires new_.VaultRow?
  {
    VaultUpdate(new_.encryptedData, new_.expiresAt, PostgresOnly)
  }

  lemma DuplicateKeepsState(s: State, new_: Row)
    ensures InsertDirect(s, new_).1.Err? ==> InsertDirect(s, new_) == (s, Err(Duplicate))
  {
    hide KeyString, Violates;
  }
}

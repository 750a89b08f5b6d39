/** The secondary unique indexes, and what the operations do to the rows that hold their entries. */
module Indexes {
  import opened Wrappers
  import opened Keys
  import opened Rows
  import opened Replay
  import opened KvStore

  // No row in Postgres and no pending insert competes with `row` for a unique index entry.
  ghost predicate Unclaimed(s: State, row: Row) {
    && (forall k :: k in s.pg && Clash(s.pg[k], row) ==> k == KeyOf(row))
    && (forall i, q :: q in Stream(s.streams, i) && q.Insert? && Clash(q.row, row) ==> KeyOf(q.row) == KeyOf(row))
  }

  // What the insert itself looks at before it refuses.
  predicate Refused(s: State, row: Row) {
    match InsertScheme(s.mode)
    case RedisKv => KeyString(KeyOf(row)) in s.redis
    case PostgresOnly => Violates(s.pg, row)
  }

  lemma SameClaims(s: State, row: Row, scheme: StorageScheme)
    ensures Violates(s.pg, Stamp(row, scheme)) == Violates(s.pg, row)
    ensures Unclaimed(s, Stamp(row, scheme)) == Unclaimed(s, row)
    ensures KeyOf(row) in s.pg ==> Violates(s.pg, row)
  {
    hide KeyString;
    assert forall b :: Clash(b, Stamp(row, scheme)) == Clash(b, row);
  }

  // A refused insert changes nothing; any other is answered with the stamped row.
  lemma RefusedInsert(s: State, row: Row)
    ensures InsertDirect(s, row).1 == if Refused(s, row) then Err(Duplicate) else Ok(Stamp(row, InsertScheme(s.mode)))
    ensures Refused(s, row) ==> InsertDirect(s, row).0 == s
  {
    hide KeyString, Violates;
    SameClaims(s, row, InsertScheme(s.mode));
  }

  lemma PushSafe(s: State, k: PartitionKey, q: Query)
    requires IndexSafe(s.pg, s.streams)
    requires q.Insert? ==> Unclaimed(s, q.row)
    ensures IndexSafe(Push(s, k, q).pg, Push(s, k, q).streams)
  {
    hide KeyString, Clash, KeyOf;
    var streams' := Push(s, k, q).streams;
    assert forall i, r :: r in Stream(streams', i) ==> r in Stream(s.streams, i) || r == q;
    forall a, b ensures Clash(a, b) <==> Clash(b, a) { ClashSymmetric(a, b); }
  }

  lemma PgInsertSafe(s: State, row: Row)
    requires IndexSafe(s.pg, s.streams) && Unclaimed(s, row)
    ensures IndexSafe(PgInsert(s, row).0.pg, s.streams)
  {
    hide KeyString, Violates;
    assert forall b :: Clash(b, row) <==> Clash(row, b);
  }

  lemma InsertSafe(s: State, new_: Row)
    requires IndexSafe(s.pg, s.streams) && (Refused(s, new_) || Unclaimed(s, new_))
    ensures var s' := InsertDirect(s, new_).0; IndexSafe(s'.pg, s'.streams)
  {
    hide KeyString, Violates, IndexSafe, Unclaimed;
    RefusedInsert(s, new_);
    if !Refused(s, new_) {
      var row := Stamp(new_, InsertScheme(s.mode));
      SameClaims(s, new_, InsertScheme(s.mode));
      var s1 := SetNx(s, KeyOf(row), row).0;
      assert Unclaimed(s1, row) by { CachedClaims(s, s1, row); }
      PgInsertSafe(s, row);
      PushSafe(s1, KeyOf(row), Insert(row));
    }
  }

  // The primary key is taken, or a locker has these three columns, or a hash row this hash id.
  predicate Taken(pg: Table, row: Row) {
    || KeyOf(row) in pg
    || (row.LockerRow? && exists k :: k in pg && HasColumns(pg[k], row.lockerHashId, row.merchantId, row.customerId))
    || (row.HashRow? && exists k :: k in pg && pg[k].HashRow? && pg[k].hashId == row.hashId)
  }

  lemma TakenIsViolated(s: State, row: Row)
    ensures Taken(s.pg, row) <==> Violates(s.pg, row)
    ensures forall scheme :: Violates(s.pg, Stamp(row, scheme)) == Violates(s.pg, row)
  {
    hide KeyString;
    forall scheme ensures Violates(s.pg, Stamp(row, scheme)) == Violates(s.pg, row) { SameClaims(s, row, scheme); }
    if Violates(s.pg, row) && KeyOf(row) !in s.pg {
      var k :| k in s.pg && Clash(s.pg[k], row);
      assert row.LockerRow? ==> HasColumns(s.pg[k], row.lockerHashId, row.merchantId, row.customerId);
    }
    if row.LockerRow? && exists k :: k in s.pg && HasColumns(s.pg[k], row.lockerHashId, row.merchantId, row.customerId) {
      var k :| k in s.pg && HasColumns(s.pg[k], row.lockerHashId, row.merchantId, row.customerId);
      assert Clash(s.pg[k], row);
    }
    if row.HashRow? && exists k :: k in s.pg && s.pg[k].HashRow? && s.pg[k].hashId == row.hashId {
      var k :| k in s.pg && s.pg[k].HashRow? && s.pg[k].hashId == row.hashId;
      assert Clash(s.pg[k], row);
    }
  }

  // No two lockers have the same three columns, no two hash rows the same hash id, and each row sits under its key.
  ghost predicate OneOwner(pg: Table) {
    && (forall k :: k in pg ==> KeyOf(pg[k]) == k)
    && (forall k, k' ::
          (k in pg && k' in pg && pg[k].LockerRow?
           && HasColumns(pg[k'], pg[k].lockerHashId, pg[k].merchantId, pg[k].customerId))
          ==> k == k')
    && (forall k, k' :: k in pg && k' in pg && pg[k].HashRow? && pg[k'].HashRow? && pg[k].hashId == pg[k'].hashId ==> k == k')
  }

  // A direct insert keeps the unique indexes, whatever it is asked to insert: it refuses exactly what is taken.
  lemma DirectInsert(s: State, row: Row)
    requires !s.mode.Enabled? && OneOwner(s.pg)
    ensures var (s', r) := InsertDirect(s, row);
            && OneOwner(s'.pg)
            && (r == Err(Duplicate) <==> Taken(s.pg, row))
            && (r == Err(Duplicate) ==> s' == s)
            && (r != Err(Duplicate) ==> r == Ok(row.(updatedBy := Some(PostgresOnly)))
                                        && s' == s.(pg := s.pg[KeyOf(row) := row.(updatedBy := Some(PostgresOnly))]))
  {
    hide KeyString, Violates;
    TakenIsViolated(s, row);
  }

  // And no more can be let in: on the KV path an accepted row with a competitor ends the safety of replay.
  lemma InsertSafeExactly(s: State, new_: Row)
    requires IndexSafe(s.pg, s.streams) && s.mode.Enabled?
    ensures var s' := InsertDirect(s, new_).0; IndexSafe(s'.pg, s'.streams) <==> Refused(s, new_) || Unclaimed(s, new_)
  {
    hide KeyString, Clash;
    if Refused(s, new_) || Unclaimed(s, new_) {
      InsertSafe(s, new_);
    } else {
      var s', row := InsertDirect(s, new_).0, Stamp(new_, RedisKv);
      SameClaims(s, new_, RedisKv);
      assert Insert(row) in Stream(s'.streams, s.shardOf(KeyOf(row)));
      assert forall i, q :: q in Stream(s.streams, i) ==> q in Stream(s'.streams, i);
    }
  }

  lemma CachedClaims(s: State, s': State, row: Row)
    requires s'.pg == s.pg && s'.streams == s.streams && Unclaimed(s, row)
    ensures Unclaimed(s', row)
  {
  }

  lemma UpdateSafe(s: State, k: PartitionKey, u: VaultUpdate)
    requires IndexSafe(s.pg, s.streams)
    ensures var s' := UpdateById(s, k, u).0; IndexSafe(s'.pg, s'.streams)
  {
    hide KeyString, FindById, Push;
    var update := StampUpdate(s, k, u);
    if SchemeFor(s, k).PostgresOnly? {
      if k in s.pg { assert forall b :: Clash(SqlUpdate(update, s.pg[k]), b) <==> Clash(s.pg[k], b); }
      forall a, b ensures Clash(a, b) <==> Clash(b, a) { ClashSymmetric(a, b); }
    } else if FindById(s, k).Ok? {
      PushSafe(HSet(s, k, FromUpdate(update, FindById(s, k).value)), k, Update(k, update));
    }
  }

  lemma DeleteSafe(s: State, k: PartitionKey)
    requires IndexSafe(s.pg, s.streams)
    ensures var s' := DeleteById(s, k).0; IndexSafe(s'.pg, s'.streams)
  {
    hide KeyString;
    PushSafe(HDel(s, k).0, k, Delete(k));
  }

  // A row whose insert has been accepted leaves the claims of others as they were.
  lemma StillUnclaimed(s: State, other: Row, row: Row)
    requires Unclaimed(s, row) && (Clash(other, row) ==> KeyOf(other) == KeyOf(row))
    ensures Unclaimed(InsertDirect(s, other).0, row)
  {
    hide KeyString, Violates;
    var s', stamped := InsertDirect(s, other).0, Stamp(other, InsertScheme(s.mode));
    assert Clash(stamped, row) == Clash(other, row);
    assert forall i, q :: q in Stream(s'.streams, i) ==> q in Stream(s.streams, i) || q == Insert(stamped);
  }
}

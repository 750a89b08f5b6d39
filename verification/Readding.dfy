/** Operations whose entries race for a unique index while they wait to be replayed. */
module Readding {
  import opened Wrappers
  import opened Hex
  import opened Keys
  import opened Rows
  import opened Replay
  import opened Races
  import opened KvStore
  import opened Refinement
  import opened Indexes
  import opened Runs
  import opened ReverseLookups

  // What one more entry does to the entries of each key.
  lemma PushPending(s: State, k: PartitionKey, q: Query, k': PartitionKey)
    requires QueryKey(q) == k
    ensures var s' := Push(s, k, q);
            PendingOf(s'.streams, s'.shardOf, k') == PendingOf(s.streams, s.shardOf, k') + if k' == k then [q] else []
  {
    hide KeyString, Pending;
    PendingAppend(Stream(s.streams, s.shardOf(k)), q, k');
  }

  lemma PushMembers(s: State, k: PartitionKey, q: Query)
    ensures forall i, r :: r in Stream(Push(s, k, q).streams, i) ==> r in Stream(s.streams, i) || r == q
  {
    hide KeyString;
  }

  // ----- a card removed and added again -----

  // The card is in Postgres, nothing waits, and the id of the new row is unused.
  ghost predicate CanReadd(s: State, a: Row, b: Row) {
    && s.mode.Enabled? && Orderly(s) && IndexSafe(s.pg, s.streams) && Drained(s.streams)
    && a.LockerRow? && b.LockerRow? && Clash(a, b) && KeyOf(a) != KeyOf(b)
    && Lookup(s.pg, KeyOf(a)) == Some(a) && Lookup(s.redis, KeyString(KeyOf(a))) in {None, Some(a)}
    && KeyOf(b) !in s.pg && KeyString(KeyOf(b)) !in s.redis
  }

  // The store after a deletion and its entry, and after an insert and its entry.
  function Deleted(s: State, k: PartitionKey): State {
    Push(HDel(s, k).0, k, Delete(k))
  }

  function Inserted(s: State, row: Row): State {
    Push(HSet(s, KeyOf(row), row), KeyOf(row), Insert(row))
  }

  function Readded(s: State, a: Row, b: Row): State
    requires a.LockerRow? && b.LockerRow?
  {
    Inserted(Inserted(Deleted(Deleted(s, KeyOf(a)), ReverseLookup(LookupIdOf(a))), LookupFor(b)), Stamp(b, RedisKv))
  }

  lemma ReaddedIs(s: State, a: Row, b: Row)
    requires CanReadd(s, a, b)
    ensures InsertLocker(DeleteLocker(s, KeyOf(a)).0, b) == (Readded(s, a, b), Ok(Stamp(b, RedisKv)))
  {
    hide KeyString, LookupId, IndexSafe, Orderly;
    assert FindById(s, KeyOf(a)) == Ok(a);
    var kl := ReverseLookup(LookupIdOf(a));
    assert DeleteLocker(s, KeyOf(a)).0 == Deleted(Deleted(s, KeyOf(a)), kl);
    assert LookupIdOf(b) == LookupIdOf(a) && LookupFor(Stamp(b, RedisKv)) == LookupFor(b) == Stamp(LookupFor(b), RedisKv);
    LookupNotLocker(b);
  }

  lemma ReaddedPending(s: State, a: Row, b: Row, k: PartitionKey)
    requires CanReadd(s, a, b) && !k.ReverseLookup?
    ensures var s' := Readded(s, a, b);
            PendingOf(s'.streams, s'.shardOf, k)
            == if k == KeyOf(a) then [Delete(k)] else if k == KeyOf(b) then [Insert(Stamp(b, RedisKv))] else []
  {
    hide KeyString, LookupId, IndexSafe, Pending, Stream, PendingOf, Orderly;
    var ka, kl, lookup, row := KeyOf(a), ReverseLookup(LookupIdOf(a)), LookupFor(b), Stamp(b, RedisKv);
    assert KeyOf(lookup) == kl && KeyOf(row) == KeyOf(b);
    var t0 := HDel(s, ka).0;
    var t1 := HDel(Push(t0, ka, Delete(ka)), kl).0;
    var t2 := HSet(Push(t1, kl, Delete(kl)), kl, lookup);
    var t3 := HSet(Push(t2, kl, Insert(lookup)), KeyOf(row), row);
    NothingPending(s, k);
    PushPending(t0, ka, Delete(ka), k);
    PushPending(t1, kl, Delete(kl), k);
    PushPending(t2, kl, Insert(lookup), k);
    PushPending(t3, KeyOf(row), Insert(row), k);
  }

  lemma ReaddedEntries(s: State, a: Row, b: Row)
    requires CanReadd(s, a, b)
    ensures var s' := Readded(s, a, b);
            && s'.pg == s.pg && s'.shardOf == s.shardOf && WellPlaced(s'.streams, s'.shardOf)
            && forall i, q :: q in Stream(s'.streams, i) && q.Insert? ==> q.row.LookupRow? || q.row == Stamp(b, RedisKv)
  {
    hide KeyString, LookupId, IndexSafe, Pending, Stream, PendingOf;
    var ka, kl, lookup, row := KeyOf(a), ReverseLookup(LookupIdOf(a)), LookupFor(b), Stamp(b, RedisKv);
    assert KeyOf(lookup) == kl && KeyOf(row) == KeyOf(b);
    var t0 := HDel(s, ka).0;
    var t1 := HDel(Push(t0, ka, Delete(ka)), kl).0;
    var t2 := HSet(Push(t1, kl, Delete(kl)), kl, lookup);
    var t3 := HSet(Push(t2, kl, Insert(lookup)), KeyOf(row), row);
    NothingPending(s, ka);
    PushOrderly(t0, ka, Delete(ka));
    PushOrderly(t1, kl, Delete(kl));
    PushOrderly(t2, kl, Insert(lookup));
    PushOrderly(t3, KeyOf(row), Insert(row));
    PushMembers(t0, ka, Delete(ka));
    PushMembers(t1, kl, Delete(kl));
    PushMembers(t2, kl, Insert(lookup));
    PushMembers(t3, KeyOf(row), Insert(row));
  }

  lemma NothingPending(s: State, k: PartitionKey)
    requires Drained(s.streams)
    ensures PendingOf(s.streams, s.shardOf, k) == []
    ensures forall i :: Stream(s.streams, i) == []
  {
  }

  // The deletion is the oldest entry of its shard.
  lemma ReaddedFirst(s: State, a: Row, b: Row)
    requires CanReadd(s, a, b)
    ensures var qs := Stream(Readded(s, a, b).streams, s.shardOf(KeyOf(a))); |qs| > 0 && qs[0] == Delete(KeyOf(a))
  {
    hide KeyString, LookupId, IndexSafe, Orderly;
    var shard := s.shardOf(KeyOf(a));
    assert Stream(s.streams, shard) == [];
    assert Stream(Deleted(s, KeyOf(a)).streams, shard) == [Delete(KeyOf(a))];
  }

  // A card removed and added again under a new id, before the removal is replayed: the new row survives a
  // complete replay exactly when the old DELETE is served before the new INSERT, so always when both keys share
  // a shard. The old row is gone either way.
  lemma ReaddBeforeReplay(s: State, a: Row, b: Row, schedule: seq<nat>)
    requires CanReadd(s, a, b)
    ensures var s' := InsertLocker(DeleteLocker(s, KeyOf(a)).0, b).0;
            InsertLocker(DeleteLocker(s, KeyOf(a)).0, b).1 == Ok(Stamp(b, RedisKv))
            && (Drained(IndexedDrainAll(s'.pg, s'.streams, schedule).1) ==>
                  var pg' := IndexedDrainAll(s'.pg, s'.streams, schedule).0;
                  && (KeyOf(b) in pg' <==> ServedFirst(s'.streams, schedule, Delete(KeyOf(a)), Insert(Stamp(b, RedisKv))))
                  && KeyOf(a) !in pg'
                  && (s.shardOf(KeyOf(a)) == s.shardOf(KeyOf(b)) ==> KeyOf(b) in pg'))
  {
    hide KeyString, LookupId, Orderly, InsertLocker, DeleteLocker, Readded, Pending, PendingOf, IndexedDrain;
    var row := Stamp(b, RedisKv);
    ReaddedIs(s, a, b);
    ReaddedEntries(s, a, b);
    ReaddedPending(s, a, b, KeyOf(a));
    ReaddedPending(s, a, b, KeyOf(b));
    var s' := Readded(s, a, b);
    assert forall k :: k in s.pg && Clash(s.pg[k], row) ==> Clash(s.pg[k], s.pg[KeyOf(a)]);
    assert Waiting(s'.pg, s'.streams, s'.shardOf, KeyOf(a), row);
    if Drained(IndexedDrainAll(s'.pg, s'.streams, schedule).1) {
      DeleteRace(s'.pg, s'.streams, s'.shardOf, schedule, KeyOf(a), row);
      if s.shardOf(KeyOf(a)) == s.shardOf(KeyOf(b)) {
        ReaddedFirst(s, a, b);
        SameShardInOrder(s'.pg, s'.streams, s'.shardOf, schedule, Delete(KeyOf(a)), Insert(row), 0);
      }
    }
  }

  // ----- a generated hash id used twice -----

  // Two new hash rows, in a store where nothing waits.
  ghost predicate CanInsertBoth(s: State, a: Row, b: Row) {
    && s.mode.Enabled? && Orderly(s) && Drained(s.streams)
    && a.HashRow? && b.HashRow? && a.hashId == b.hashId && a.dataHash != b.dataHash
    && KeyString(KeyOf(a)) !in s.redis && KeyString(KeyOf(b)) !in s.redis
    && KeyOf(a) !in s.pg && KeyOf(b) !in s.pg && forall k :: k in s.pg ==> !Clash(s.pg[k], a)
  }

  lemma BothInserted(s: State, a: Row, b: Row)
    requires CanInsertBoth(s, a, b)
    ensures InsertDirect(s, a) == (Inserted(s, Stamp(a, RedisKv)), Ok(Stamp(a, RedisKv)))
    ensures InsertDirect(InsertDirect(s, a).0, b)
         == (Inserted(Inserted(s, Stamp(a, RedisKv)), Stamp(b, RedisKv)), Ok(Stamp(b, RedisKv)))
  {
    hide KeyString;
    HashKeysApart(a, b);
  }

  lemma BothPending(s: State, a: Row, b: Row, k: PartitionKey)
    requires CanInsertBoth(s, a, b)
    ensures var s' := Inserted(Inserted(s, Stamp(a, RedisKv)), Stamp(b, RedisKv));
            && s'.pg == s.pg && WellPlaced(s'.streams, s'.shardOf)
            && PendingOf(s'.streams, s'.shardOf, k)
               == (if k == KeyOf(a) then [Insert(Stamp(a, RedisKv))]
                   else if k == KeyOf(b) then [Insert(Stamp(b, RedisKv))] else [])
            && forall i, q :: q in Stream(s'.streams, i) ==> q == Insert(Stamp(a, RedisKv)) || q == Insert(Stamp(b, RedisKv))
  {
    hide KeyString, Pending, PendingOf, Stream;
    var ra, rb := Stamp(a, RedisKv), Stamp(b, RedisKv);
    var t0 := HSet(s, KeyOf(ra), ra);
    var t1 := HSet(Push(t0, KeyOf(ra), Insert(ra)), KeyOf(rb), rb);
    NothingPending(s, k);
    PushPending(t0, KeyOf(ra), Insert(ra), k);
    PushPending(t1, KeyOf(rb), Insert(rb), k);
    PushOrderly(t0, KeyOf(ra), Insert(ra));
    PushOrderly(t1, KeyOf(rb), Insert(rb));
    PushMembers(t0, KeyOf(ra), Insert(ra));
    PushMembers(t1, KeyOf(rb), Insert(rb));
  }

  // Two data hashes get one hash id while KV is enabled: both inserts are acknowledged, and exactly the row whose
  // entry is served first reaches Postgres.
  lemma HashIdTwice(s: State, a: Row, b: Row, schedule: seq<nat>)
    requires CanInsertBoth(s, a, b)
    ensures var (s1, r) := InsertDirect(s, a);
            var (s2, r') := InsertDirect(s1, b);
            && r == Ok(Stamp(a, RedisKv)) && r' == Ok(Stamp(b, RedisKv))
            && (Drained(IndexedDrainAll(s2.pg, s2.streams, schedule).1) ==>
                  var pg' := IndexedDrainAll(s2.pg, s2.streams, schedule).0;
                  var first := ServedFirst(s2.streams, schedule, Insert(Stamp(a, RedisKv)), Insert(Stamp(b, RedisKv)));
                  (KeyOf(a) in pg' <==> first) && (KeyOf(b) in pg' <==> !first))
  {
    hide KeyString, Pending, PendingOf, IndexedDrain, Stream, InsertDirect, Inserted;
    var ra, rb := Stamp(a, RedisKv), Stamp(b, RedisKv);
    BothInserted(s, a, b);
    BothPending(s, a, b, KeyOf(a));
    BothPending(s, a, b, KeyOf(b));
    var s2 := Inserted(Inserted(s, ra), rb);
    assert Waiting(s2.pg, s2.streams, s2.shardOf, KeyOf(ra), rb) && Waiting(s2.pg, s2.streams, s2.shardOf, KeyOf(rb), ra);
    if Drained(IndexedDrainAll(s2.pg, s2.streams, schedule).1) {
      InsertRace(s2.pg, s2.streams, s2.shardOf, schedule, ra, rb);
    }
  }

  lemma HashKeysApart(a: Row, b: Row)
    requires a.HashRow? && b.HashRow? && a.dataHash != b.dataHash
    ensures KeyString(KeyOf(a)) != KeyString(KeyOf(b))
  {
    hide KeyString;
    if KeyString(KeyOf(a)) == KeyString(KeyOf(b)) { KeyStringInjective(KeyOf(a), KeyOf(b)); }
  }
}

/** FIFO replay of the drainer streams into Postgres. */
module Replay {
  import opened Wrappers
  import opened Keys
  import opened Rows

  type Table = map<PartitionKey, Row>
  type Streams = map<nat, seq<Query>>

  function Stream(streams: Streams, shard: nat): seq<Query> {
    if shard in streams then streams[shard] else []
  }

  function ReplayRow(o: Option<Row>, qs: seq<Query>): Option<Row> {
    if qs == [] then o else Effect(ReplayRow(o, qs[..|qs| - 1]), qs[|qs| - 1])
  }

  // The entries of one key, in order.
  function Pending(qs: seq<Query>, k: PartitionKey): seq<Query> {
    if qs == [] then []
    else Pending(qs[..|qs| - 1], k) + if QueryKey(qs[|qs| - 1]) == k then [qs[|qs| - 1]] else []
  }

  lemma PendingAppend(qs: seq<Query>, q: Query, k: PartitionKey)
    ensures Pending(qs + [q], k) == Pending(qs, k) + if QueryKey(q) == k then [q] else []
  {
    assert (qs + [q])[..|qs|] == qs;
  }

  lemma {:induction false} PendingConcat(qs: seq<Query>, rs: seq<Query>, k: PartitionKey)
    ensures Pending(qs + rs, k) == Pending(qs, k) + Pending(rs, k)
  {
    if rs == [] {
      assert qs + rs == qs;
    } else {
      var init := rs[..|rs| - 1];
      PendingConcat(qs, init, k);
      assert (qs + rs)[..|qs + rs| - 1] == qs + init;
    }
  }

  lemma PendingHead(qs: seq<Query>, k: PartitionKey)
    requires qs != []
    ensures Pending(qs, k) == (if QueryKey(qs[0]) == k then [qs[0]] else []) + Pending(qs[1..], k)
  {
    assert qs == [qs[0]] + qs[1..];
    PendingConcat([qs[0]], qs[1..], k);
  }

  lemma {:induction false} PendingMembers(qs: seq<Query>, k: PartitionKey)
    ensures forall q :: q in Pending(qs, k) <==> q in qs && QueryKey(q) == k
  {
    if qs != [] {
      PendingMembers(qs[..|qs| - 1], k);
      assert qs == qs[..|qs| - 1] + [qs[|qs| - 1]];
    }
  }

  lemma ReplayAppend(o: Option<Row>, qs: seq<Query>, q: Query)
    ensures ReplayRow(o, qs + [q]) == Effect(ReplayRow(o, qs), q)
  {
    assert (qs + [q])[..|qs|] == qs;
  }

  lemma {:induction false} ReplayHead(o: Option<Row>, q: Query, qs: seq<Query>)
    ensures ReplayRow(o, [q] + qs) == ReplayRow(Effect(o, q), qs)
  {
    if qs == [] {
      assert [q] + qs == [] + [q];
      ReplayAppend(o, [], q);
    } else {
      var init := qs[..|qs| - 1];
      ReplayHead(o, q, init);
      assert ([q] + qs)[..|qs|] == [q] + init;
    }
  }

  // A row that is there outlives further inserts.
  lemma {:induction false} InsertsKeepRow(o: Option<Row>, qs: seq<Query>)
    requires o.Some? && forall q :: q in qs ==> q.Insert?
    ensures ReplayRow(o, qs) == o
  {
    if qs != [] {
      assert qs[|qs| - 1] in qs;
      InsertsKeepRow(o, qs[..|qs| - 1]);
    }
  }

  // One statement on the whole table, conflicts decided by primary key.
  function Statement(pg: Table, q: Query): Table {
    match q
    case Insert(row) => if KeyOf(row) in pg then pg else pg[KeyOf(row) := row]
    case Update(k, u) => if k in pg then pg[k := SqlUpdate(u, pg[k])] else pg
    case Delete(k) => pg - {k}
  }

  lemma StatementAt(pg: Table, q: Query, k: PartitionKey)
    ensures Lookup(Statement(pg, q), k) == if QueryKey(q) == k then Effect(Lookup(pg, k), q) else Lookup(pg, k)
  {
  }

  // The drainer takes the oldest entry of one shard and runs it; an empty shard gives nothing to do.
  function Drain(pg: Table, streams: Streams, shard: nat): (Table, Streams) {
    var qs := Stream(streams, shard);
    if qs == [] then (pg, streams)
    else (Statement(pg, qs[0]), streams[shard := qs[1..]])
  }

  function DrainAll(pg: Table, streams: Streams, schedule: seq<nat>): (Table, Streams)
    decreases schedule
  {
    if schedule == [] then (pg, streams)
    else
      var (pg', streams') := Drain(pg, streams, schedule[0]);
      DrainAll(pg', streams', schedule[1..])
  }

  ghost predicate Drained(streams: Streams) {
    forall i :: Stream(streams, i) == []
  }

  // Every entry sits in the shard of its key.
  ghost predicate WellPlaced(streams: Streams, shardOf: PartitionKey -> nat) {
    forall i, q :: q in Stream(streams, i) ==> shardOf(QueryKey(q)) == i
  }

  // The row a key will have once everything already written is replayed.
  function Truth(pg: Table, streams: Streams, shardOf: PartitionKey -> nat, k: PartitionKey): Option<Row> {
    ReplayRow(Lookup(pg, k), Pending(Stream(streams, shardOf(k)), k))
  }

  lemma DrainPending(pg: Table, streams: Streams, shardOf: PartitionKey -> nat, shard: nat, k: PartitionKey)
    requires WellPlaced(streams, shardOf)
    ensures var (pg', streams') := Drain(pg, streams, shard);
            var old_, new_ := Pending(Stream(streams, shardOf(k)), k), Pending(Stream(streams', shardOf(k)), k);
            || (Lookup(pg', k) == Lookup(pg, k) && new_ == old_)
            || (old_ != [] && new_ == old_[1..] && Lookup(pg', k) == Effect(Lookup(pg, k), old_[0]))
    ensures WellPlaced(Drain(pg, streams, shard).1, shardOf)
  {
    var qs := Stream(streams, shard);
    if qs != [] {
      var streams' := Drain(pg, streams, shard).1;
      PendingHead(qs, k);
      StatementAt(pg, qs[0], k);
      assert qs[0] in qs;
      forall i, q | q in Stream(streams', i)
        ensures shardOf(QueryKey(q)) == i
      {
        assert q in Stream(streams, i);
      }
    }
  }

  // Replay never changes what a key will end up as.
  lemma DrainKeepsTruth(pg: Table, streams: Streams, shardOf: PartitionKey -> nat, shard: nat, k: PartitionKey)
    requires WellPlaced(streams, shardOf)
    ensures var (pg', streams') := Drain(pg, streams, shard);
            Truth(pg', streams', shardOf, k) == Truth(pg, streams, shardOf, k) && WellPlaced(streams', shardOf)
  {
    DrainPending(pg, streams, shardOf, shard, k);
    var pending := Pending(Stream(streams, shardOf(k)), k);
    if pending != [] {
      assert pending == [pending[0]] + pending[1..];
      ReplayHead(Lookup(pg, k), pending[0], pending[1..]);
    }
  }

  lemma {:induction false} DrainAllKeepsTruth(
      pg: Table, streams: Streams, shardOf: PartitionKey -> nat, schedule: seq<nat>, k: PartitionKey)
    requires WellPlaced(streams, shardOf)
    ensures var (pg', streams') := DrainAll(pg, streams, schedule);
            Truth(pg', streams', shardOf, k) == Truth(pg, streams, shardOf, k)
    decreases schedule
  {
    if schedule != [] {
      DrainKeepsTruth(pg, streams, shardOf, schedule[0], k);
      var (pg', streams') := Drain(pg, streams, schedule[0]);
      DrainAllKeepsTruth(pg', streams', shardOf, schedule[1..], k);
    }
  }

  // Whatever order the shards are served in, a complete replay ends in the table of truths.
  lemma CompleteReplay(pg: Table, streams: Streams, shardOf: PartitionKey -> nat, schedule: seq<nat>)
    requires WellPlaced(streams, shardOf)
    requires Drained(DrainAll(pg, streams, schedule).1)
    ensures forall k :: Lookup(DrainAll(pg, streams, schedule).0, k) == Truth(pg, streams, shardOf, k)
  {
    forall k
      ensures Lookup(DrainAll(pg, streams, schedule).0, k) == Truth(pg, streams, shardOf, k)
    {
      DrainAllKeepsTruth(pg, streams, shardOf, schedule, k);
    }
  }

  lemma ReplayConfluence(
      pg: Table, streams: Streams, shardOf: PartitionKey -> nat, schedule: seq<nat>, schedule': seq<nat>)
    requires WellPlaced(streams, shardOf)
    requires Drained(DrainAll(pg, streams, schedule).1)
    requires Drained(DrainAll(pg, streams, schedule').1)
    ensures DrainAll(pg, streams, schedule).0 == DrainAll(pg, streams, schedule').0
  {
    var a, b := DrainAll(pg, streams, schedule).0, DrainAll(pg, streams, schedule').0;
    CompleteReplay(pg, streams, shardOf, schedule);
    CompleteReplay(pg, streams, shardOf, schedule');
    SameLookups(a, b);
  }

  lemma SameLookups(a: Table, b: Table)
    requires forall k :: Lookup(a, k) == Lookup(b, k)
    ensures a == b
  {
    forall k
      ensures k in a <==> k in b
      ensures k in a ==> k in b && a[k] == b[k]
    {
      assert Lookup(a, k) == Lookup(b, k);
    }
  }

  // ----- unique indexes other than the primary keys -----

  // locker is unique on (hash_id, merchant_id, customer_id), hash_table on hash_id.
  predicate Clash(a: Row, b: Row) {
    || (a.LockerRow? && b.LockerRow? && a.lockerHashId == b.lockerHashId
        && a.merchantId == b.merchantId && a.customerId == b.customerId)
    || (a.HashRow? && b.HashRow? && a.hashId == b.hashId)
  }

  ghost predicate Blocked(pg: Table, row: Row) {
    exists k :: k in pg && Clash(pg[k], row)
  }

  // The statement as Postgres runs it, all unique indexes included.
  ghost function IndexedStatement(pg: Table, q: Query): Table {
    if q.Insert? && Blocked(pg, q.row) then pg else Statement(pg, q)
  }

  ghost function IndexedDrain(pg: Table, streams: Streams, shard: nat): (Table, Streams) {
    var qs := Stream(streams, shard);
    if qs == [] then (pg, streams)
    else (IndexedStatement(pg, qs[0]), streams[shard := qs[1..]])
  }

  ghost function IndexedDrainAll(pg: Table, streams: Streams, schedule: seq<nat>): (Table, Streams)
    decreases schedule
  {
    if schedule == [] then (pg, streams)
    else
      var (pg', streams') := IndexedDrain(pg, streams, schedule[0]);
      IndexedDrainAll(pg', streams', schedule[1..])
  }

  // The rows in the table and the rows still to be inserted never compete for an index entry.
  ghost predicate IndexSafe(pg: Table, streams: Streams) {
    && (forall k, k' :: k in pg && k' in pg && Clash(pg[k], pg[k']) ==> k == k')
    && (forall k, i, q :: k in pg && q in Stream(streams, i) && q.Insert? && Clash(pg[k], q.row) ==> k == KeyOf(q.row))
    && (forall i, q, j, r ::
          (q in Stream(streams, i) && r in Stream(streams, j) && q.Insert? && r.Insert? && Clash(q.row, r.row))
          ==> KeyOf(q.row) == KeyOf(r.row))
  }

  lemma SafeStatement(pg: Table, streams: Streams, shard: nat)
    requires IndexSafe(pg, streams) && Stream(streams, shard) != []
    ensures var q := Stream(streams, shard)[0]; IndexedStatement(pg, q) == Statement(pg, q)
  {
    var q := Stream(streams, shard)[0];
    assert q in Stream(streams, shard);
    if q.Insert? && Blocked(pg, q.row) {
      assert KeyOf(q.row) in pg;
    }
  }

  // A statement leaves each row with the index entries it had, or adds its own.
  lemma StatementClash(pg: Table, q: Query)
    ensures forall k :: k in Statement(pg, q) ==>
              (k in pg && forall row :: Clash(Statement(pg, q)[k], row) <==> Clash(pg[k], row))
              || (q.Insert? && k == KeyOf(q.row) && Statement(pg, q)[k] == q.row)
  {
  }

  lemma ClashSymmetric(a: Row, b: Row)
    ensures Clash(a, b) <==> Clash(b, a)
  {
  }

  lemma SafeStep(pg: Table, streams: Streams, shard: nat)
    requires IndexSafe(pg, streams)
    ensures IndexedDrain(pg, streams, shard) == Drain(pg, streams, shard)
    ensures IndexSafe(Drain(pg, streams, shard).0, Drain(pg, streams, shard).1)
  {
    hide Clash, Statement, SqlUpdate, KeyOf;
    var qs := Stream(streams, shard);
    if qs != [] {
      SafeStatement(pg, streams, shard);
      StatementClash(pg, qs[0]);
      forall a, b ensures Clash(a, b) <==> Clash(b, a) { ClashSymmetric(a, b); }
      assert qs[0] in qs;
      assert forall i, r :: r in Stream(Drain(pg, streams, shard).1, i) ==> r in Stream(streams, i);
    }
  }

  // Under that condition the extra indexes are invisible to replay, so the results above are about Postgres itself.
  lemma {:induction false} IndexesInvisible(pg: Table, streams: Streams, schedule: seq<nat>)
    requires IndexSafe(pg, streams)
    ensures IndexedDrainAll(pg, streams, schedule) == DrainAll(pg, streams, schedule)
    decreases schedule
  {
    if schedule != [] {
      SafeStep(pg, streams, schedule[0]);
      var (pg', streams') := Drain(pg, streams, schedule[0]);
      IndexesInvisible(pg', streams', schedule[1..]);
    }
  }

  // What Postgres ends up with, all indexes included, however the shards are interleaved.
  lemma IndexedConfluence(
      pg: Table, streams: Streams, shardOf: PartitionKey -> nat, schedule: seq<nat>, schedule': seq<nat>)
    requires WellPlaced(streams, shardOf) && IndexSafe(pg, streams)
    requires Drained(IndexedDrainAll(pg, streams, schedule).1)
    requires Drained(IndexedDrainAll(pg, streams, schedule').1)
    ensures IndexedDrainAll(pg, streams, schedule).0 == IndexedDrainAll(pg, streams, schedule').0
    ensures forall k :: Lookup(IndexedDrainAll(pg, streams, schedule).0, k) == Truth(pg, streams, shardOf, k)
  {
    IndexesInvisible(pg, streams, schedule);
    IndexesInvisible(pg, streams, schedule');
    ReplayConfluence(pg, streams, shardOf, schedule, schedule');
    CompleteReplay(pg, streams, shardOf, schedule);
  }
}

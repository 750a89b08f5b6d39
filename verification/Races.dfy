/** Two entries that compete for one unique index entry: which row survives the replay. */
module Races {
  import opened Wrappers
  import opened Keys
  import opened Rows
  import opened Replay

  // Whether replay takes `q` before `r`.
  predicate ServedFirst(streams: Streams, schedule: seq<nat>, q: Query, r: Query)
    decreases schedule
  {
    if schedule == [] then false
    else
      var qs := Stream(streams, schedule[0]);
      if qs == [] then ServedFirst(streams, schedule[1..], q, r)
      else if qs[0] == q then true
      else if qs[0] == r then false
      else ServedFirst(streams[schedule[0] := qs[1..]], schedule[1..], q, r)
  }

  function PendingOf(streams: Streams, shardOf: PartitionKey -> nat, k: PartitionKey): seq<Query> {
    Pending(Stream(streams, shardOf(k)), k)
  }

  // One replay step, seen from one key: nothing, or its oldest entry, refused or carried out.
  lemma IndexedStep(pg: Table, streams: Streams, shardOf: PartitionKey -> nat, shard: nat, k: PartitionKey)
    requires WellPlaced(streams, shardOf) && Stream(streams, shard) != []
    ensures var (pg', streams') := IndexedDrain(pg, streams, shard);
            var q := Stream(streams, shard)[0];
            var old_ := PendingOf(streams, shardOf, k);
            && WellPlaced(streams', shardOf)
            && (QueryKey(q) != k ==> PendingOf(streams', shardOf, k) == old_ && Lookup(pg', k) == Lookup(pg, k))
            && (QueryKey(q) == k ==> old_ != [] && old_[0] == q && PendingOf(streams', shardOf, k) == old_[1..])
  {
    hide KeyOf, Clash, SqlUpdate, Pending;
    var qs := Stream(streams, shard);
    assert qs[0] in qs;
    PendingHead(qs, k);
    StatementAt(pg, qs[0], k);
    var streams' := IndexedDrain(pg, streams, shard).1;
    forall i, q | q in Stream(streams', i)
      ensures shardOf(QueryKey(q)) == i
    {
      assert q in Stream(streams, i);
    }
  }

  lemma NotDrained(streams: Streams, shardOf: PartitionKey -> nat, k: PartitionKey)
    requires PendingOf(streams, shardOf, k) != []
    ensures !Drained(streams)
  {
    assert Stream(streams, shardOf(k)) != [];
  }

  // A key without entries keeps its row.
  lemma {:induction false} Untouched(
      pg: Table, streams: Streams, shardOf: PartitionKey -> nat, schedule: seq<nat>, k: PartitionKey)
    requires WellPlaced(streams, shardOf) && PendingOf(streams, shardOf, k) == []
    ensures Lookup(IndexedDrainAll(pg, streams, schedule).0, k) == Lookup(pg, k)
    decreases schedule
  {
    hide WellPlaced, PendingOf, IndexedStatement;
    if schedule != [] {
      var (pg', streams') := IndexedDrain(pg, streams, schedule[0]);
      if Stream(streams, schedule[0]) != [] { IndexedStep(pg, streams, shardOf, schedule[0], k); }
      Untouched(pg', streams', shardOf, schedule[1..], k);
    }
  }

  // A key whose one entry is its deletion loses its row.
  lemma {:induction false} LoneDelete(
      pg: Table, streams: Streams, shardOf: PartitionKey -> nat, schedule: seq<nat>, k: PartitionKey)
    requires WellPlaced(streams, shardOf) && PendingOf(streams, shardOf, k) == [Delete(k)]
    requires Drained(IndexedDrainAll(pg, streams, schedule).1)
    ensures k !in IndexedDrainAll(pg, streams, schedule).0
    decreases schedule
  {
    hide WellPlaced, Pending;
    if schedule != [] {
      var qs := Stream(streams, schedule[0]);
      var (pg', streams') := IndexedDrain(pg, streams, schedule[0]);
      if qs != [] { IndexedStep(pg, streams, shardOf, schedule[0], k); }
      if qs != [] && QueryKey(qs[0]) == k {
        Untouched(pg', streams', shardOf, schedule[1..], k);
      } else {
        LoneDelete(pg', streams', shardOf, schedule[1..], k);
      }
    } else {
      NotDrained(streams, shardOf, k);
    }
  }

  // `b` waits to be inserted, and only rows of `k` may stand in its way.
  ghost predicate Waiting(pg: Table, streams: Streams, shardOf: PartitionKey -> nat, k: PartitionKey, b: Row) {
    && WellPlaced(streams, shardOf) && k != KeyOf(b) && KeyOf(b) !in pg
    && PendingOf(streams, shardOf, KeyOf(b)) == [Insert(b)]
    && (forall k' :: k' in pg && Clash(pg[k'], b) ==> k' == k)
    && (forall i, q :: q in Stream(streams, i) && q.Insert? && Clash(q.row, b) ==>
          QueryKey(q) == KeyOf(b) || QueryKey(q) == k)
  }

  lemma WaitingStep(pg: Table, streams: Streams, shardOf: PartitionKey -> nat, shard: nat, k: PartitionKey, b: Row)
    requires Waiting(pg, streams, shardOf, k, b) && Stream(streams, shard) != []
    requires QueryKey(Stream(streams, shard)[0]) != KeyOf(b)
    ensures var (pg', streams') := IndexedDrain(pg, streams, shard);
            Waiting(pg', streams', shardOf, k, b)
  {
    hide Clash, PendingOf, KeyOf, Statement, SqlUpdate;
    var qs := Stream(streams, shard);
    assert qs[0] in qs;
    IndexedStep(pg, streams, shardOf, shard, KeyOf(b));
    StatementClash(pg, qs[0]);
    var (pg', streams') := IndexedDrain(pg, streams, shard);
    assert forall i, q :: q in Stream(streams', i) ==> q in Stream(streams, i);
    forall k' | k' in pg' && Clash(pg'[k'], b)
      ensures k' == k
    {
      if k' !in pg || !Clash(pg[k'], b) { assert qs[0].Insert? && Clash(qs[0].row, b); }
    }
  }

  // With nothing in its way, it lands.
  lemma {:induction false} FreeInsert(
      pg: Table, streams: Streams, shardOf: PartitionKey -> nat, schedule: seq<nat>, k: PartitionKey, b: Row)
    requires Waiting(pg, streams, shardOf, k, b) && k !in pg && PendingOf(streams, shardOf, k) == []
    requires Drained(IndexedDrainAll(pg, streams, schedule).1)
    ensures Lookup(IndexedDrainAll(pg, streams, schedule).0, KeyOf(b)) == Some(b)
    decreases schedule
  {
    hide Clash, KeyOf, SqlUpdate, Pending;
    if schedule != [] {
      var qs := Stream(streams, schedule[0]);
      var (pg', streams') := IndexedDrain(pg, streams, schedule[0]);
      if qs == [] {
        FreeInsert(pg, streams, shardOf, schedule[1..], k, b);
      } else {
        IndexedStep(pg, streams, shardOf, schedule[0], k);
        IndexedStep(pg, streams, shardOf, schedule[0], KeyOf(b));
        if QueryKey(qs[0]) == KeyOf(b) {
          Untouched(pg', streams', shardOf, schedule[1..], KeyOf(b));
        } else {
          WaitingStep(pg, streams, shardOf, schedule[0], k, b);
          FreeInsert(pg', streams', shardOf, schedule[1..], k, b);
        }
      }
    } else {
      NotDrained(streams, shardOf, KeyOf(b));
    }
  }

  // With a settled row in its way, it is lost.
  lemma {:induction false} BlockedInsert(
      pg: Table, streams: Streams, shardOf: PartitionKey -> nat, schedule: seq<nat>, k: PartitionKey, b: Row)
    requires Waiting(pg, streams, shardOf, k, b) && k in pg && Clash(pg[k], b) && PendingOf(streams, shardOf, k) == []
    ensures KeyOf(b) !in IndexedDrainAll(pg, streams, schedule).0
    decreases schedule
  {
    hide Clash, KeyOf, SqlUpdate, Pending;
    if schedule != [] {
      var qs := Stream(streams, schedule[0]);
      var (pg', streams') := IndexedDrain(pg, streams, schedule[0]);
      if qs == [] {
        BlockedInsert(pg, streams, shardOf, schedule[1..], k, b);
      } else {
        IndexedStep(pg, streams, shardOf, schedule[0], k);
        IndexedStep(pg, streams, shardOf, schedule[0], KeyOf(b));
        if QueryKey(qs[0]) == KeyOf(b) {
          assert Blocked(pg, b);
          Untouched(pg', streams', shardOf, schedule[1..], KeyOf(b));
        } else {
          WaitingStep(pg, streams, shardOf, schedule[0], k, b);
          assert Lookup(pg', k) == Lookup(pg, k);
          BlockedInsert(pg', streams', shardOf, schedule[1..], k, b);
        }
      }
    }
  }

  // A row is to be deleted and its successor on the index to be inserted: the successor survives a complete
  // replay exactly when the deletion is served first. The old row is gone either way.
  lemma {:induction false} DeleteRace(
      pg: Table, streams: Streams, shardOf: PartitionKey -> nat, schedule: seq<nat>, k: PartitionKey, b: Row)
    requires Waiting(pg, streams, shardOf, k, b) && k in pg && Clash(pg[k], b)
    requires PendingOf(streams, shardOf, k) == [Delete(k)]
    requires Drained(IndexedDrainAll(pg, streams, schedule).1)
    ensures KeyOf(b) in IndexedDrainAll(pg, streams, schedule).0 <==> ServedFirst(streams, schedule, Delete(k), Insert(b))
    ensures k !in IndexedDrainAll(pg, streams, schedule).0
    decreases schedule
  {
    hide Clash, KeyOf, SqlUpdate, Pending;
    if schedule != [] {
      var qs := Stream(streams, schedule[0]);
      var (pg', streams') := IndexedDrain(pg, streams, schedule[0]);
      if qs == [] {
        DeleteRace(pg, streams, shardOf, schedule[1..], k, b);
      } else {
        IndexedStep(pg, streams, shardOf, schedule[0], k);
        IndexedStep(pg, streams, shardOf, schedule[0], KeyOf(b));
        if QueryKey(qs[0]) == k {
          WaitingStep(pg, streams, shardOf, schedule[0], k, b);
          FreeInsert(pg', streams', shardOf, schedule[1..], k, b);
          Untouched(pg', streams', shardOf, schedule[1..], k);
        } else if QueryKey(qs[0]) == KeyOf(b) {
          assert Blocked(pg, b);
          Untouched(pg', streams', shardOf, schedule[1..], KeyOf(b));
          LoneDelete(pg', streams', shardOf, schedule[1..], k);
        } else {
          WaitingStep(pg, streams, shardOf, schedule[0], k, b);
          assert Lookup(pg', k) == Lookup(pg, k);
          DeleteRace(pg', streams', shardOf, schedule[1..], k, b);
        }
      }
    } else {
      NotDrained(streams, shardOf, KeyOf(b));
    }
  }

  // Two rows wait for one index entry: the one served first survives a complete replay, and only that one.
  lemma {:induction false} InsertRace(
      pg: Table, streams: Streams, shardOf: PartitionKey -> nat, schedule: seq<nat>, a: Row, b: Row)
    requires Waiting(pg, streams, shardOf, KeyOf(a), b) && Waiting(pg, streams, shardOf, KeyOf(b), a) && Clash(a, b)
    requires Drained(IndexedDrainAll(pg, streams, schedule).1)
    ensures KeyOf(a) in IndexedDrainAll(pg, streams, schedule).0 <==> ServedFirst(streams, schedule, Insert(a), Insert(b))
    ensures KeyOf(b) in IndexedDrainAll(pg, streams, schedule).0 <==> !ServedFirst(streams, schedule, Insert(a), Insert(b))
    decreases schedule
  {
    hide Clash, KeyOf, SqlUpdate, Pending;
    ClashSymmetric(a, b);
    if schedule != [] {
      var qs := Stream(streams, schedule[0]);
      var (pg', streams') := IndexedDrain(pg, streams, schedule[0]);
      if qs == [] {
        InsertRace(pg, streams, shardOf, schedule[1..], a, b);
      } else {
        IndexedStep(pg, streams, shardOf, schedule[0], KeyOf(a));
        IndexedStep(pg, streams, shardOf, schedule[0], KeyOf(b));
        if QueryKey(qs[0]) == KeyOf(a) {
          WaitingStep(pg, streams, shardOf, schedule[0], KeyOf(a), b);
          assert Lookup(pg', KeyOf(a)) == Some(a);
          BlockedInsert(pg', streams', shardOf, schedule[1..], KeyOf(a), b);
          Untouched(pg', streams', shardOf, schedule[1..], KeyOf(a));
        } else if QueryKey(qs[0]) == KeyOf(b) {
          WaitingStep(pg, streams, shardOf, schedule[0], KeyOf(b), a);
          assert Lookup(pg', KeyOf(b)) == Some(b);
          BlockedInsert(pg', streams', shardOf, schedule[1..], KeyOf(b), a);
          Untouched(pg', streams', shardOf, schedule[1..], KeyOf(b));
        } else {
          WaitingStep(pg, streams, shardOf, schedule[0], KeyOf(a), b);
          WaitingStep(pg, streams, shardOf, schedule[0], KeyOf(b), a);
          InsertRace(pg', streams', shardOf, schedule[1..], a, b);
        }
      }
    } else {
      NotDrained(streams, shardOf, KeyOf(b));
    }
  }

  // In one shard the entries are served in the order written.
  lemma {:induction false} SameShardInOrder(
      pg: Table, streams: Streams, shardOf: PartitionKey -> nat, schedule: seq<nat>, q: Query, r: Query, i: nat)
    requires WellPlaced(streams, shardOf) && shardOf(QueryKey(q)) == shardOf(QueryKey(r))
    requires var qs := Stream(streams, shardOf(QueryKey(q))); i < |qs| && qs[i] == q && r !in qs[..i + 1]
    requires Drained(IndexedDrainAll(pg, streams, schedule).1)
    ensures ServedFirst(streams, schedule, q, r)
    decreases schedule
  {
    var shard := shardOf(QueryKey(q));
    if schedule != [] {
      var qs := Stream(streams, schedule[0]);
      var (pg', streams') := IndexedDrain(pg, streams, schedule[0]);
      if qs == [] {
        SameShardInOrder(pg, streams, shardOf, schedule[1..], q, r, i);
      } else if qs[0] != q {
        assert qs[0] in qs;
        IndexedStep(pg, streams, shardOf, schedule[0], QueryKey(q));
        if schedule[0] == shard {
          assert qs[0] == qs[..i + 1][0];
          assert qs[1..][..i] == qs[..i + 1][1..];
          SameShardInOrder(pg', streams', shardOf, schedule[1..], q, r, i - 1);
        } else {
          assert Stream(streams', shard) == Stream(streams, shard);
          SameShardInOrder(pg', streams', shardOf, schedule[1..], q, r, i);
        }
      }
    }
  }
}

/** The KV operations against a plain table. */
module Refinement {
  import opened Wrappers
  import opened Keys
  import opened Rows
  import opened Replay
  import opened KvStore

  // ----- one key of a plain table -----

  function PlainInsert(o: Option<Row>, row: Row): (Option<Row>, Result<Row>) {
    if o.Some? then (o, Err(Duplicate)) else (Some(row), Ok(row))
  }

  function PlainUpdate(o: Option<Row>, u: VaultUpdate): (Option<Row>, Result<Row>) {
    if o.None? then (o, Err(NotFound)) else (Some(SqlUpdate(u, o.value)), Ok(SqlUpdate(u, o.value)))
  }

  function PlainFind(o: Option<Row>): Result<Row> {
    if o.Some? then Ok(o.value) else Err(NotFound)
  }

  function TruthOf(s: State, k: PartitionKey): Option<Row> {
    At(s, k).Truth()
  }

  // A live Redis row is the row of the intended table; a key without one has nothing pending
  // but, possibly, its own deletion.
  ghost predicate Coherent(c: Cell) {
    if c.cached.Some? then c.Truth() == c.cached
    else c.pending == [] || c.pending[|c.pending| - 1].Delete?
  }

  // What holds of a key between operations. In Disabled mode Redis rows are never looked at and may go
  // stale; the streams are empty.
  ghost predicate Sound(s: State, k: PartitionKey) {
    if s.mode.Disabled? then At(s, k).pending == [] else Coherent(At(s, k))
  }

  // The one window in which a read goes wrong: the row is deleted, but not yet in Postgres.
  predicate DeleteWindow(c: Cell) {
    c.cached.None? && c.pending != [] && c.stored.Some?
  }

  lemma {:induction false} ReplayKeepsKey(o: Option<Row>, qs: seq<Query>, k: PartitionKey)
    requires o.Some? ==> KeyOf(o.value) == k
    requires forall q :: q in qs ==> QueryKey(q) == k
    ensures ReplayRow(o, qs).Some? ==> KeyOf(ReplayRow(o, qs).value) == k
  {
    if qs != [] {
      ReplayKeepsKey(o, qs[..|qs| - 1], k);
      assert qs[|qs| - 1] in qs;
    }
  }

  // Appending an entry runs it on the truth.
  lemma AppendTruth(c: Cell, cached: Option<Row>, q: Query)
    ensures var c' := Cell(cached, c.pending + [q], c.stored);
            c'.Truth() == Effect(c.Truth(), q) && c'.pending != [] && c'.pending[|c'.pending| - 1] == q
  {
    ReplayAppend(c.stored, c.pending, q);
  }

  lemma SettledTruth(c: Cell)
    requires c.pending == []
    ensures c.Truth() == c.stored
  {
  }

  // What is intended for a key whose Redis row has gone.
  lemma MissTruth(c: Cell)
    requires Coherent(c) && c.cached.None?
    ensures c.Truth() == if c.pending == [] then c.stored else None
  {
  }

  lemma TruthKeyed(s: State, k: PartitionKey)
    requires Orderly(s)
    ensures TruthOf(s, k).Some? ==> KeyOf(TruthOf(s, k).value) == k
    ensures forall q :: q in At(s, k).pending ==> QueryKey(q) == k && KvQuery(q)
  {
    PendingMembers(Stream(s.streams, s.shardOf(k)), k);
    ReplayKeepsKey(At(s, k).stored, At(s, k).pending, k);
  }

  // ----- insert -----

  lemma InsertEffect(s: State, new_: Row, k: PartitionKey)
    requires Apart(KeyOf(new_), k)
    ensures k != KeyOf(new_) ==> At(InsertDirect(s, new_).0, k) == At(s, k)
  {
    hide KeyString, Pending, ReplayRow;
    var row := Stamp(new_, InsertScheme(s.mode));
    SetAt(s, KeyOf(row), row, k);
    PushAt(SetNx(s, KeyOf(row), row).0, KeyOf(row), Insert(row), k);
  }

  ghost predicate InsertAgrees(s: State, new_: Row) {
    var (s', r) := InsertDirect(s, new_);
    (TruthOf(s', KeyOf(new_)), r) == PlainInsert(TruthOf(s, KeyOf(new_)), Stamp(new_, InsertScheme(s.mode)))
  }

  // Enabled: the insert looks at Redis alone. Otherwise it looks at Postgres alone, indexes included.
  ghost predicate InsertGuard(s: State, new_: Row) {
    var c := At(s, KeyOf(new_));
    match InsertScheme(s.mode)
    case RedisKv => c.cached.Some? || c.Truth().None?
    case PostgresOnly => if Violates(s.pg, new_) then c.Truth().Some? else c.pending == []
  }

  // Entries still pending behind a direct insert always show: a KV update or delete leaves its mark.
  lemma {:induction false} PendingShows(row: Row, qs: seq<Query>)
    requires qs != [] && row.updatedBy == Some(PostgresOnly)
    requires forall q :: q in qs ==> KvQuery(q) && QueryKey(q) == KeyOf(row)
    ensures ReplayRow(None, qs).Some? || ReplayRow(Some(row), qs) != Some(row)
  {
    assert qs[|qs| - 1] in qs;
    ReplayKeepsKey(Some(row), qs[..|qs| - 1], KeyOf(row));
  }

  lemma KvInsertAt(s: State, row: Row)
    requires Lookup(s.redis, KeyString(KeyOf(row))) == None
    ensures var c := At(s, KeyOf(row));
            At(KvInsert(s, row).0, KeyOf(row)) == Cell(Some(row), c.pending + [Insert(row)], c.stored)
  {
    hide KeyString, Pending, ReplayRow;
    SetAt(s, KeyOf(row), row, KeyOf(row));
    PushAt(SetNx(s, KeyOf(row), row).0, KeyOf(row), Insert(row), KeyOf(row));
  }

  lemma InsertOrderly(s: State, new_: Row)
    requires Orderly(s)
    ensures Orderly(InsertDirect(s, new_).0)
  {
    hide KeyString;
    var row := Stamp(new_, InsertScheme(s.mode));
    if InsertScheme(s.mode).RedisKv? && KeyString(KeyOf(row)) !in s.redis {
      PushOrderly(SetNx(s, KeyOf(row), row).0, KeyOf(row), Insert(row));
    }
  }

  lemma InsertRefinesKv(s: State, new_: Row)
    requires s.mode.Enabled? && Sound(s, KeyOf(new_))
    ensures InsertAgrees(s, new_) <==> InsertGuard(s, new_)
    ensures InsertGuard(s, new_) ==> Sound(InsertDirect(s, new_).0, KeyOf(new_))
  {
    hide KeyString, ReplayRow, Pending;
    var row := Stamp(new_, RedisKv);
    var c := At(s, KeyOf(row));
    if c.cached.None? {
      KvInsertAt(s, row);
      AppendTruth(c, Some(row), Insert(row));
    }
  }

  lemma InsertRefinesPg(s: State, new_: Row)
    requires !s.mode.Enabled? && Orderly(s) && Sound(s, KeyOf(new_))
    ensures InsertAgrees(s, new_) <==> InsertGuard(s, new_)
    ensures InsertGuard(s, new_) ==> Sound(InsertDirect(s, new_).0, KeyOf(new_))
  {
    hide KeyString;
    var row := Stamp(new_, PostgresOnly);
    var c := At(s, KeyOf(row));
    assert Violates(s.pg, new_) == Violates(s.pg, row);
    if !Violates(s.pg, row) {
      var s' := s.(pg := s.pg[KeyOf(row) := row]);
      assert InsertDirect(s, new_) == (s', Ok(row));
      assert At(s', KeyOf(row)) == c.(stored := Some(row));
      TruthKeyed(s, KeyOf(row));
      if c.pending != [] {
        PendingShows(row, c.pending);
      }
    }
  }

  // An insert does what it would do on a plain table exactly when its guard holds.
  lemma InsertRefines(s: State, new_: Row)
    requires Orderly(s) && Sound(s, KeyOf(new_))
    ensures InsertAgrees(s, new_) <==> InsertGuard(s, new_)
    ensures InsertGuard(s, new_) ==> Sound(InsertDirect(s, new_).0, KeyOf(new_))
  {
    hide KeyString, ReplayRow, Pending;
    if s.mode.Enabled? { InsertRefinesKv(s, new_); } else { InsertRefinesPg(s, new_); }
  }

  // ----- update -----

  lemma UpdateEffect(s: State, k: PartitionKey, u: VaultUpdate, k': PartitionKey)
    requires Apart(k, k')
    ensures k' != k ==> At(UpdateById(s, k, u).0, k') == At(s, k')
  {
    hide KeyString, Pending, ReplayRow;
    var update := StampUpdate(s, k, u);
    if SchemeFor(s, k).RedisKv? && FindById(s, k).Ok? {
      var row := FromUpdate(update, FindById(s, k).value);
      SetAt(s, k, row, k');
      PushAt(HSet(s, k, row), k, Update(k, update), k');
    }
  }

  ghost predicate UpdateAgrees(s: State, k: PartitionKey, u: VaultUpdate) {
    var (s', r) := UpdateById(s, k, u);
    (TruthOf(s', k), r) == PlainUpdate(TruthOf(s, k), StampUpdate(s, k, u))
  }

  ghost predicate UpdateGuard(s: State, k: PartitionKey, u: VaultUpdate) {
    var c := At(s, k);
    && !DeleteWindow(c)
    && (SchemeFor(s, k).RedisKv? && c.Truth().Some? ==> MergeAgrees(u, c.Truth().value))
  }

  lemma KvUpdateAt(s: State, k: PartitionKey, u: VaultUpdate)
    requires SchemeFor(s, k).RedisKv? && FindById(s, k).Ok?
    ensures var c, update := At(s, k), StampUpdate(s, k, u);
            At(UpdateById(s, k, u).0, k)
            == Cell(Some(FromUpdate(update, FindById(s, k).value)), c.pending + [Update(k, update)], c.stored)
  {
    hide KeyString, Pending, ReplayRow;
    var update := StampUpdate(s, k, u);
    var row := FromUpdate(update, FindById(s, k).value);
    SetAt(s, k, row, k);
    PushAt(HSet(s, k, row), k, Update(k, update), k);
  }

  lemma UpdateOrderly(s: State, k: PartitionKey, u: VaultUpdate)
    requires Orderly(s) && k.Vault?
    ensures Orderly(UpdateById(s, k, u).0)
  {
    hide KeyString;
    var update := StampUpdate(s, k, u);
    if SchemeFor(s, k).RedisKv? && FindById(s, k).Ok? {
      PushOrderly(HSet(s, k, FromUpdate(update, FindById(s, k).value)), k, Update(k, update));
    }
  }

  lemma UpdateRefinesKv(s: State, k: PartitionKey, u: VaultUpdate)
    requires Orderly(s) && k.Vault? && Sound(s, k) && SchemeFor(s, k).RedisKv?
    ensures UpdateAgrees(s, k, u) <==> UpdateGuard(s, k, u)
    ensures UpdateGuard(s, k, u) ==> Sound(UpdateById(s, k, u).0, k)
  {
    hide KeyString, ReplayRow, Pending;
    var update := StampUpdate(s, k, u);
    var c := At(s, k);
    TruthKeyed(s, k);
    if c.cached.None? { MissTruth(c); }
    if FindById(s, k).Ok? {
      KvUpdateAt(s, k, u);
      AppendTruth(c, Some(FromUpdate(update, FindById(s, k).value)), Update(k, update));
      if c.Truth().Some? {
        MergeAgreesExactly(update, c.Truth().value);
      }
    }
  }

  lemma UpdateRefinesPg(s: State, k: PartitionKey, u: VaultUpdate)
    requires Sound(s, k) && SchemeFor(s, k).PostgresOnly?
    ensures UpdateAgrees(s, k, u) <==> UpdateGuard(s, k, u)
    ensures UpdateGuard(s, k, u) ==> Sound(UpdateById(s, k, u).0, k)
  {
    hide KeyString;
    var c := At(s, k);
    if k in s.pg {
      var row := SqlUpdate(StampUpdate(s, k, u), s.pg[k]);
      assert UpdateById(s, k, u) == (s.(pg := s.pg[k := row]), Ok(row));
      assert At(UpdateById(s, k, u).0, k) == c.(stored := Some(row));
    }
  }

  // An update does what it would do on a plain table exactly when its guard holds.
  lemma UpdateRefines(s: State, k: PartitionKey, u: VaultUpdate)
    requires Orderly(s) && k.Vault? && Sound(s, k)
    ensures UpdateAgrees(s, k, u) <==> UpdateGuard(s, k, u)
    ensures UpdateGuard(s, k, u) ==> Sound(UpdateById(s, k, u).0, k)
  {
    hide KeyString, ReplayRow, Pending;
    if SchemeFor(s, k).RedisKv? { UpdateRefinesKv(s, k, u); } else { UpdateRefinesPg(s, k, u); }
  }

  // ----- delete -----

  lemma DeleteEffect(s: State, k: PartitionKey, k': PartitionKey)
    requires Apart(k, k')
    ensures k' != k ==> At(DeleteById(s, k).0, k') == At(s, k')
  {
    hide KeyString, Pending, ReplayRow;
    DelAt(s, k, k');
    PushAt(HDel(s, k).0, k, Delete(k), k');
  }

  // When the number of rows reported is the number deleted: the Redis path counts the Redis row.
  ghost predicate CountGuard(s: State, k: PartitionKey) {
    match SchemeFor(s, k)
    case RedisKv => At(s, k).cached.Some? || TruthOf(s, k).None?
    case PostgresOnly => !DeleteWindow(At(s, k))
  }

  ghost predicate CountAgrees(s: State, k: PartitionKey) {
    DeleteById(s, k).1 == if TruthOf(s, k).Some? then 1 else 0
  }

  lemma KvDeleteAt(s: State, k: PartitionKey)
    requires SchemeFor(s, k).RedisKv?
    ensures var c := At(s, k);
            At(DeleteById(s, k).0, k) == Cell(None, c.pending + [Delete(k)], c.stored)
  {
    hide KeyString, Pending, ReplayRow;
    DelAt(s, k, k);
    PushAt(HDel(s, k).0, k, Delete(k), k);
  }

  // A delete is right in every case; its row count is right exactly when its guard holds.
  lemma DeleteRefines(s: State, k: PartitionKey)
    requires Sound(s, k)
    ensures TruthOf(DeleteById(s, k).0, k) == None
    ensures CountAgrees(s, k) <==> CountGuard(s, k)
    ensures Sound(DeleteById(s, k).0, k)
  {
    hide KeyString, Pending, ReplayRow;
    var c := At(s, k);
    if SchemeFor(s, k).RedisKv? {
      KvDeleteAt(s, k);
      AppendTruth(c, None, Delete(k));
    } else {
      var c' := c.(stored := None);
      assert At(DeleteById(s, k).0, k) == c';
      if c.pending == [] {
        SettledTruth(c);
        SettledTruth(c');
      } else {
        MissTruth(c);
        MissTruth(c');
      }
    }
  }

  lemma DeleteOrderly(s: State, k: PartitionKey)
    requires Orderly(s)
    ensures Orderly(DeleteById(s, k).0)
  {
    hide KeyString;
    PushOrderly(HDel(s, k).0, k, Delete(k));
  }

  // ----- find -----

  lemma FindRefines(s: State, k: PartitionKey)
    requires Sound(s, k)
    ensures FindById(s, k) == PlainFind(TruthOf(s, k)) <==> !DeleteWindow(At(s, k))
  {
    hide KeyString;
  }
}

/** Inputs on which the KV path and a plain table part ways: each guard of Refinement is needed. */
module Witnesses {
  import opened Wrappers
  import opened Keys
  import opened Rows
  import opened Replay
  import opened KvStore
  import opened Refinement
  import opened Runs

  const KEY := Vault("e", "v")

  function Card(data: int, expiresAt: Option<int>): Row
    requires 0 <= data < 256
  {
    VaultRow("e", "v", [data], 0, expiresAt, Some(RedisKv))
  }

  // Enabled, with one row in Postgres and none in Redis.
  function Stored(expiresAt: Option<int>): State {
    State(Enabled, map[], map[], map[KEY := Card(1, expiresAt)], _ => 0)
  }

  lemma StoredAt(expiresAt: Option<int>)
    ensures At(Stored(expiresAt), KEY) == Cell(None, [], Some(Card(1, expiresAt)))
  {
  }

  lemma Pushed(q: Query)
    ensures Pending([q], QueryKey(q)) == [q]
    ensures forall o :: ReplayRow(o, [q]) == Effect(o, q)
  {
    assert [q][..0] == [];
  }

  // A deleted row is still found until its DELETE is replayed.
  lemma FindAfterDelete()
    ensures var s := DeleteById(Stored(None), KEY).0;
            TruthOf(s, KEY) == None && FindById(s, KEY) == Ok(Card(1, None))
  {
    var s0 := Stored(None);
    var s := DeleteById(s0, KEY).0;
    assert Stream(s.streams, 0) == [Delete(KEY)];
    Pushed(Delete(KEY));
  }

  // An insert over a row that Redis has forgotten is acknowledged, and lost.
  lemma InsertOverStored()
    ensures var (s, r) := InsertDirect(Stored(None), Card(2, None));
            r == Ok(Card(2, None)) && TruthOf(s, KEY) == Some(Card(1, None))
  {
    var (s, r) := InsertDirect(Stored(None), Card(2, None));
    assert Stream(s.streams, 0) == [Insert(Card(2, None))];
    Pushed(Insert(Card(2, None)));
  }

  lemma StoredFind(expiresAt: Option<int>)
    ensures FindById(Stored(expiresAt), KEY) == Ok(Card(1, expiresAt))
    ensures TruthOf(Stored(expiresAt), KEY) == Some(Card(1, expiresAt))
  {
    StoredAt(expiresAt);
    SettledTruth(At(Stored(expiresAt), KEY));
  }

  // Overwriting without an expiry clears it in Redis and keeps it in Postgres.
  lemma ExpiryDisagrees()
    ensures var u := VaultUpdate([2], None, RedisKv);
            var (s, r) := UpdateById(Stored(Some(9)), KEY, u);
            r == Ok(Card(2, None)) && TruthOf(s, KEY) == Some(Card(2, Some(9)))
  {
    hide KeyString, Pending, ReplayRow, FindById, At, Push, HSet;
    var s0, u := Stored(Some(9)), VaultUpdate([2], None, RedisKv);
    StoredFind(Some(9));
    assert FromUpdate(u, Card(1, Some(9))) == Card(2, None);
    KvUpdateAt(s0, KEY, u);
    AppendTruth(At(s0, KEY), Some(Card(2, None)), Update(KEY, u));
  }

  // A row changed while KV is disabled is hidden by its old Redis copy once KV is enabled again.
  lemma StaleAfterDisabled()
    ensures var s := Stored(None).(mode := Disabled, redis := map[KeyString(KEY) := Card(1, None)]);
            var s' := UpdateById(s, KEY, VaultUpdate([2], None, RedisKv)).0.(mode := Enabled);
            TruthOf(s', KEY).Some? && TruthOf(s', KEY).value.encryptedData == [2] && FindById(s', KEY) == Ok(Card(1, None))
  {
  }

  // Two updates of one key that interleave: both read the row, one writes Redis first and its entry last. Redis
  // and the truth then agree exactly when the two updates leave the same row in either order.
  lemma UpdatesCross(s: State, k: PartitionKey, row: Row, u: VaultUpdate, u': VaultUpdate)
    requires row.VaultRow? && At(s, k).cached == Some(row) && Coherent(At(s, k))
    ensures var s1 := HSet(HSet(s, k, FromUpdate(u, row)), k, FromUpdate(u', row));
            var s2 := Push(Push(s1, k, Update(k, u')), k, Update(k, u));
            At(s2, k).cached == TruthOf(s2, k) <==>
              && u.encryptedData == u'.encryptedData && u.updatedBy == u'.updatedBy
              && u'.expiresAt == if u.expiresAt.Some? then u.expiresAt
                                 else if u'.expiresAt.Some? then u'.expiresAt else row.expiresAt
  {
    hide KeyString, Pending, ReplayRow;
    var s1 := HSet(HSet(s, k, FromUpdate(u, row)), k, FromUpdate(u', row));
    PushAt(s1, k, Update(k, u'), k);
    PushAt(Push(s1, k, Update(k, u')), k, Update(k, u), k);
    var c := At(s1, k);
    AppendTruth(At(s, k), c.cached, Update(k, u'));
    AppendTruth(Cell(c.cached, c.pending + [Update(k, u')], c.stored), c.cached, Update(k, u));
  }
}

/** Lockers found by (hash, merchant, customer) through the reverse_lookup table. */
module ReverseLookups {
  import opened Wrappers
  import opened Hex
  import opened Keys
  import opened Rows
  import opened Replay
  import opened KvStore
  import opened Refinement
  import opened Indexes
  import opened Runs

  datatype LockerAction =
    | AddLocker(row: Row)
    | RemoveLocker(key: PartitionKey)
    | Environment(action: Action)

  ghost function LockerStep(s: State, a: LockerAction): State {
    match a
    case AddLocker(row) => if row.LockerRow? then InsertLocker(s, row).0 else s
    case RemoveLocker(k) => DeleteLocker(s, k).0
    case Environment(action) => Step(s, action).0
  }

  ghost function LockerRun(s: State, actions: seq<LockerAction>): State
    decreases actions
  {
    if actions == [] then s else LockerRun(LockerStep(s, actions[0]), actions[1..])
  }

  // ----- what callers and environment must keep to -----

  // `keys` are the keys in use, no two of which share their printed form. A locker id is used once, and its
  // columns are free; neither is asked of an addition that the store refuses. A lookup that leads to another
  // locker is removed only when that locker has reached Postgres. A delete is not issued into its own window.
  ghost predicate LockerAllowed(s: State, keys: iset<PartitionKey>, a: LockerAction) {
    match a
    case AddLocker(row) =>
      && row.LockerRow? && KeyOf(row) in keys && ReverseLookup(LookupIdOf(row)) in keys
      && (s.mode.Enabled? ==> InsertGuard(s, LookupFor(row)))
      && (AddRefused(s, row) || (At(s, KeyOf(row)) == Cell(None, [], None) && Unclaimed(s, row)))
    case RemoveLocker(k) => k.Locker? && k in keys && !DeleteWindow(At(s, k)) && SparesOthers(s, keys, k)
    case Environment(action) => (action.DrainShard? || action.ExpireKey? || action.SetMode?) && Allowed(s, keys, action)
  }

  // Enabled: a lookup with this id is in Redis. Otherwise: Postgres refuses the row.
  predicate AddRefused(s: State, row: Row)
    requires row.LockerRow?
  {
    if s.mode.Enabled? then KeyString(ReverseLookup(LookupIdOf(row))) in s.redis else Violates(s.pg, row)
  }

  ghost predicate SparesOthers(s: State, keys: iset<PartitionKey>, k: PartitionKey) {
    var o := TruthOf(s, k);
    o.Some? && o.value.LockerRow? ==>
      var lookup := TruthOf(s, ReverseLookup(LookupIdOf(o.value)));
      forall k' :: k' in keys && k' != k && LeadsTo(lookup, k') ==> k' in s.pg
  }

  predicate LeadsTo(lookup: Option<Row>, k: PartitionKey) {
    lookup.Some? && lookup.value.LookupRow? && lookup.value.partitionKey == KeyString(k)
  }

  predicate IsLocker(o: Option<Row>, hashId: string) {
    o.Some? && o.value.LockerRow? && o.value.lockerHashId == hashId
  }

  ghost predicate LockerAllowedRun(s: State, keys: iset<PartitionKey>, actions: seq<LockerAction>)
    decreases actions
  {
    actions == [] || (LockerAllowed(s, keys, actions[0]) && LockerAllowedRun(LockerStep(s, actions[0]), keys, actions[1..]))
  }

  // ----- the invariant -----

  function LookupKey(m: string, c: string, h: string): PartitionKey {
    ReverseLookup(LookupId(m, c, h))
  }

  // Rows and entries are those of keys in use.
  ghost predicate InUse(s: State, keys: iset<PartitionKey>) {
    && (forall k :: k in s.pg ==> k in keys)
    && (forall i, q :: q in Stream(s.streams, i) ==> QueryKey(q) in keys)
  }

  // A lookup leads to a locker with this lookup id.
  ghost predicate LookupSound(s: State, keys: iset<PartitionKey>, id: string) {
    var o := TruthOf(s, ReverseLookup(id));
    o.Some? ==> exists k :: k in keys && LeadsTo(o, k) && HasLookupId(TruthOf(s, k), id)
  }

  predicate HasLookupId(o: Option<Row>, id: string) {
    o.Some? && o.value.LockerRow? && LookupIdOf(o.value) == id
  }

  // A locker has no pending deletion, and either it is in Postgres or its lookup leads to it.
  ghost predicate LockerComplete(s: State, keys: iset<PartitionKey>, k: PartitionKey) {
    var o := TruthOf(s, k);
    o.Some? ==>
      && (forall q :: q in At(s, k).pending ==> q.Insert?)
      && o.value.LockerRow?
      && ReverseLookup(LookupIdOf(o.value)) in keys
      && (k in s.pg || LeadsTo(TruthOf(s, ReverseLookup(LookupIdOf(o.value))), k))
  }

  ghost predicate LockerInv(s: State, keys: iset<PartitionKey>) {
    && Ready(s, keys)
    && InUse(s, keys)
    && (forall id :: ReverseLookup(id) in keys ==> LookupSound(s, keys, id))
    && (forall k :: k in keys && k.Locker? ==> LockerComplete(s, keys, k))
  }

  // ----- finding -----

  // The right answer to a search by columns: the row every pending entry leads to, or none at all.
  ghost predicate RightAnswer(s: State, h: string, m: string, c: string, r: Result<Row>) {
    match r
    case Ok(row) => HasColumns(row, h, m, c) && TruthOf(s, KeyOf(row)) == Some(row)
    case Err(e) => e == NotFound && forall l :: !IsLocker(TruthOf(s, Locker(m, c, l)), h)
  }

  // No deletion of the lookup, or of a locker with these columns, waits to be replayed.
  ghost predicate NoUndrainedDelete(s: State, h: string, m: string, c: string) {
    && !DeleteWindow(At(s, LookupKey(m, c, h)))
    && forall k, q :: k in s.pg && HasColumns(s.pg[k], h, m, c) && q in At(s, k).pending ==> !q.Delete?
  }

  // The lookup leads to a live Redis row that has other columns than those asked for.
  predicate Misled(s: State, h: string, m: string, c: string) {
    var lookup := FindById(s, LookupKey(m, c, h));
    && !s.mode.Disabled? && lookup.Ok? && lookup.value.LookupRow? && lookup.value.partitionKey in s.redis
    && !HasColumns(s.redis[lookup.value.partitionKey], h, m, c)
  }

  lemma {:induction false} TruthSource(o: Option<Row>, qs: seq<Query>)
    requires forall q :: q in qs ==> !q.Update?
    ensures ReplayRow(o, qs).Some? ==> ReplayRow(o, qs) == o || Insert(ReplayRow(o, qs).value) in qs
  {
    if qs != [] {
      TruthSource(o, qs[..|qs| - 1]);
      assert qs[|qs| - 1] in qs;
      assert forall q :: q in qs[..|qs| - 1] ==> q in qs;
    }
  }

  lemma NoUpdates(s: State, k: PartitionKey)
    requires Orderly(s) && !k.Vault?
    ensures forall q :: q in At(s, k).pending ==> !q.Update? && q in Stream(s.streams, s.shardOf(k))
  {
    hide KeyString, ReplayRow, Pending;
    var qs := Stream(s.streams, s.shardOf(k));
    PendingMembers(qs, k);
    forall q | q in At(s, k).pending
      ensures !q.Update? && q in qs
    {
      assert q in Pending(qs, k);
      assert q in Stream(s.streams, s.shardOf(k)) && KvQuery(q) && QueryKey(q) == k;
    }
  }

  // Two rows that are both there never share a unique index entry.
  lemma TruthsUnique(s: State, k: PartitionKey, k': PartitionKey)
    requires Orderly(s) && IndexSafe(s.pg, s.streams) && !k.Vault? && !k'.Vault?
    requires TruthOf(s, k).Some? && TruthOf(s, k').Some? && Clash(TruthOf(s, k).value, TruthOf(s, k').value)
    ensures k == k'
  {
    hide KeyString, Pending, ReplayRow;
    NoUpdates(s, k);
    NoUpdates(s, k');
    TruthKeyed(s, k);
    TruthKeyed(s, k');
    TruthSource(At(s, k).stored, At(s, k).pending);
    TruthSource(At(s, k').stored, At(s, k').pending);
  }

  // A stored locker with no deletion pending is what it will be.
  lemma StoredIsTruth(s: State, k: PartitionKey)
    requires Orderly(s) && !k.Vault? && k in s.pg && forall q :: q in At(s, k).pending ==> !q.Delete?
    ensures TruthOf(s, k) == Some(s.pg[k])
  {
    hide KeyString, Pending;
    NoUpdates(s, k);
    InsertsKeepRow(At(s, k).stored, At(s, k).pending);
  }

  // A locker that is there is the locker of a key in use.
  lemma TruthInUse(s: State, keys: iset<PartitionKey>, k: PartitionKey)
    requires Orderly(s) && InUse(s, keys) && k.Locker? && TruthOf(s, k).Some?
    ensures k in keys
  {
    hide KeyString, Pending, ReplayRow;
    NoUpdates(s, k);
    TruthKeyed(s, k);
    TruthSource(At(s, k).stored, At(s, k).pending);
  }

  // The SELECT on the columns is right whenever the row, if any, has reached Postgres.
  lemma ScanRight(s: State, keys: iset<PartitionKey>, h: string, m: string, c: string)
    requires LockerInv(s, keys) && NoUndrainedDelete(s, h, m, c)
    requires forall l :: IsLocker(TruthOf(s, Locker(m, c, l)), h) ==> Locker(m, c, l) in s.pg
    ensures RightAnswer(s, h, m, c, PgFindByColumns(s, h, m, c))
  {
    hide KeyString, Pending, ReplayRow, Ready, InUse;
    var r := PgFindByColumns(s, h, m, c);
    assert Orderly(s) by { ReadyOrderly(s, keys); }
    if r.Err? {
      forall l
        ensures !IsLocker(TruthOf(s, Locker(m, c, l)), h)
      {
        var k := Locker(m, c, l);
        if IsLocker(TruthOf(s, k), h) {
          TruthInUse(s, keys, k);
          assert LockerComplete(s, keys, k);
          StoredIsTruth(s, k);
        }
      }
    } else {
      var k :| k in s.pg && HasColumns(s.pg[k], h, m, c) && r == Ok(s.pg[k]);
      assert KeyOf(s.pg[k]) == k;
      StoredIsTruth(s, k);
    }
  }

  lemma ReadyOrderly(s: State, keys: iset<PartitionKey>)
    requires Ready(s, keys)
    ensures Orderly(s)
  {
  }

  // A locker with these columns that is not in Postgres is the one its lookup leads to, alive in Redis.
  lemma OnlyInRedis(s: State, keys: iset<PartitionKey>, k: PartitionKey)
    requires LockerInv(s, keys) && k.Locker? && TruthOf(s, k).Some? && k !in s.pg
    ensures TruthOf(s, k).value.LockerRow? && LeadsTo(TruthOf(s, ReverseLookup(LookupIdOf(TruthOf(s, k).value))), k)
    ensures !s.mode.Disabled? && At(s, k).cached == TruthOf(s, k)
  {
    hide KeyString, Pending, ReplayRow, IndexSafe, InUse;
    TruthInUse(s, keys, k);
    assert LockerComplete(s, keys, k) && Sound(s, k);
    if At(s, k).pending == [] { SettledTruth(At(s, k)); }
    if At(s, k).cached.None? && !s.mode.Disabled? { MissTruth(At(s, k)); }
  }

  // Whatever mode a locker was added in, and whichever Redis keys have expired, the search is right unless, and
  // only unless, the lookup leads to a live row with other columns.
  lemma FindByLookupRight(s: State, keys: iset<PartitionKey>, h: string, m: string, c: string)
    requires LockerInv(s, keys) && LookupKey(m, c, h) in keys && NoUndrainedDelete(s, h, m, c)
    ensures RightAnswer(s, h, m, c, FindByLookup(s, h, m, c)) <==> !Misled(s, h, m, c)
  {
    hide KeyString, Pending, ReplayRow, IndexSafe, PgFindByColumns, InUse;
    var kl := LookupKey(m, c, h);
    assert LookupSound(s, keys, LookupId(m, c, h)) && Sound(s, kl);
    FindRefines(s, kl);
    var lookup := TruthOf(s, kl);
    forall l | IsLocker(TruthOf(s, Locker(m, c, l)), h) && Locker(m, c, l) !in s.pg
      ensures !s.mode.Disabled? && LeadsTo(lookup, Locker(m, c, l)) && lookup.value.partitionKey in s.redis
    {
      OnlyInRedis(s, keys, Locker(m, c, l));
      TruthKeyed(s, Locker(m, c, l));
    }
    if s.mode.Disabled? || lookup.None? || lookup.value.partitionKey !in s.redis {
      ScanRight(s, keys, h, m, c);
    } else {
      var k :| k in keys && LeadsTo(lookup, k) && HasLookupId(TruthOf(s, k), LookupId(m, c, h));
      assert Sound(s, k);
      TruthKeyed(s, k);
    }
  }

  // When the lockers with this lookup id have these columns, no search for them is misled.
  lemma ColumnsApart(s: State, keys: iset<PartitionKey>, h: string, m: string, c: string)
    requires LockerInv(s, keys) && LookupKey(m, c, h) in keys && !DeleteWindow(At(s, LookupKey(m, c, h)))
    requires forall k :: k in keys && HasLookupId(TruthOf(s, k), LookupId(m, c, h)) ==>
               HasColumns(TruthOf(s, k).value, h, m, c)
    ensures !Misled(s, h, m, c)
  {
    hide KeyString, Pending, ReplayRow, IndexSafe, InUse, LookupId;
    var kl := LookupKey(m, c, h);
    assert LookupSound(s, keys, LookupId(m, c, h)) && Sound(s, kl);
    FindRefines(s, kl);
    if TruthOf(s, kl).Some? {
      var k :| k in keys && LeadsTo(TruthOf(s, kl), k) && HasLookupId(TruthOf(s, k), LookupId(m, c, h));
      assert Sound(s, k);
    }
  }

  // Names without a separator are a case of it.
  lemma PlainNamesApart(s: State, keys: iset<PartitionKey>, h: string, m: string, c: string)
    requires LockerInv(s, keys) && LookupKey(m, c, h) in keys && !DeleteWindow(At(s, LookupKey(m, c, h)))
    requires '_' !in m && '_' !in c && forall k :: k in keys ==> WellFormed(k)
    ensures !Misled(s, h, m, c)
  {
    hide KeyString, Pending, ReplayRow, IndexSafe, InUse, LookupId;
    forall k | k in keys && HasLookupId(TruthOf(s, k), LookupId(m, c, h))
      ensures HasColumns(TruthOf(s, k).value, h, m, c)
    {
      var row := TruthOf(s, k).value;
      TruthKeyed(s, k);
      LookupIdInjective(row.merchantId, row.customerId, row.lockerHashId, m, c, h);
    }
    ColumnsApart(s, keys, h, m, c);
  }

  lemma LookupIdInjective(m: string, c: string, h: string, m': string, c': string, h': string)
    requires '_' !in m && '_' !in c && '_' !in m' && '_' !in c'
    requires LookupId(m, c, h) == LookupId(m', c', h')
    ensures m == m' && c == c' && h == h'
  {
    DropPrefix("locker_", m + "_" + (c + "_" + h), m' + "_" + (c' + "_" + h'));
    SplitUnique(m, c + "_" + h, m', c' + "_" + h');
    SplitUnique(c, h, c', h');
  }

  // ----- adding -----

  // The answer to an addition, from what a caller could look up beforehand.
  lemma AddReply(s: State, new_: Row)
    requires new_.LockerRow?
    ensures s.mode.Enabled? ==>
              (InsertLocker(s, new_).1 == Err(Backend) <==> KeyString(ReverseLookup(LookupIdOf(new_))) in s.redis)
    ensures s.mode.Enabled? ==>
              (InsertLocker(s, new_).1 == Err(Duplicate) <==>
               KeyString(ReverseLookup(LookupIdOf(new_))) !in s.redis && KeyString(KeyOf(new_)) in s.redis)
    ensures !s.mode.Enabled? ==> InsertLocker(s, new_).1 != Err(Backend)
                                 && (InsertLocker(s, new_).1 == Err(Duplicate) <==> Violates(s.pg, new_))
    ensures AddRefused(s, new_) ==> InsertLocker(s, new_).0 == s && InsertLocker(s, new_).1.Err?
    ensures InsertLocker(s, new_).1 != Err(NotFound)
  {
    hide KeyString, LookupId, Violates;
    SameClaims(s, new_, InsertScheme(s.mode));
    LookupNotLocker(new_);
  }

  lemma LookupNotLocker(row: Row)
    requires row.LockerRow?
    ensures KeyString(ReverseLookup(LookupIdOf(row))) != KeyString(KeyOf(row))
  {
    hide LookupId, KeyString;
    if KeyString(ReverseLookup(LookupIdOf(row))) == KeyString(KeyOf(row)) {
      TablesDisjoint(ReverseLookup(LookupIdOf(row)), KeyOf(row));
    }
  }

  // On the Redis path the locker is added in two inserts, its lookup first; both succeed.
  lemma AddEnabled(s: State, keys: iset<PartitionKey>, new_: Row)
    requires LockerInv(s, keys) && LockerAllowed(s, keys, AddLocker(new_)) && s.mode.Enabled? && !AddRefused(s, new_)
    ensures var lookup := LookupFor(new_);
            var s1 := InsertDirect(s, lookup).0;
            && Allowed(s, keys, DoInsert(lookup)) && Ready(s1, keys) && s1.mode == s.mode
            && Allowed(s1, keys, DoInsert(new_))
            && At(s1, KeyOf(new_)) == Cell(None, [], None)
            && InsertLocker(s, new_) == InsertDirect(s1, new_)
            && TruthOf(s, KeyOf(lookup)) == None
            && InsertDirect(s, lookup).1.Ok?
  {
    hide KeyString, Pending, ReplayRow, IndexSafe, Orderly, LookupId, Unclaimed, InUse, Apart;
    var lookup := LookupFor(new_);
    var k, kl := KeyOf(new_), KeyOf(lookup);
    assert Unclaimed(s, lookup) by { LookupUnclaimed(s, lookup); }
    StepReady(s, keys, DoInsert(lookup));
    InsertEffect(s, lookup, k);
    StillUnclaimed(s, lookup, new_);
    SettledTruth(At(s, k));
    assert Stamp(lookup, RedisKv) == lookup == LookupFor(Stamp(new_, RedisKv));
    var s1 := InsertDirect(s, lookup).0;
    assert At(s1, k).Truth() == None;
  }

  lemma LookupUnclaimed(s: State, lookup: Row)
    requires lookup.LookupRow?
    ensures Unclaimed(s, lookup)
  {
  }

  ghost predicate AddOutcome(s: State, keys: iset<PartitionKey>, new_: Row, k: PartitionKey)
    requires new_.LockerRow?
  {
    var (s', r) := InsertLocker(s, new_);
    var row := Stamp(new_, InsertScheme(s.mode));
    var kl := ReverseLookup(LookupIdOf(new_));
    && r == Ok(row) && Ready(s', keys)
    && TruthOf(s', k) == (if k == KeyOf(new_) then Some(row)
                          else if k == kl && s.mode.Enabled? then Some(LookupFor(new_)) else TruthOf(s, k))
    && (s.mode.Enabled? || KeyOf(new_) in s'.pg)
    && (k in s.pg ==> k in s'.pg)
    && (k != KeyOf(new_) && k != kl ==> At(s', k) == At(s, k))
    && (forall q :: q in At(s', KeyOf(new_)).pending ==> q.Insert?)
  }

  lemma AddEffectEnabled(s: State, keys: iset<PartitionKey>, new_: Row, k: PartitionKey)
    requires LockerInv(s, keys) && LockerAllowed(s, keys, AddLocker(new_)) && k in keys && s.mode.Enabled?
    requires !AddRefused(s, new_)
    ensures AddOutcome(s, keys, new_, k)
  {
    hide KeyString, Pending, ReplayRow, IndexSafe, Orderly, LookupId, Violates, Unclaimed, InUse, Apart, Refused;
    var k0, row, lookup := KeyOf(new_), Stamp(new_, RedisKv), LookupFor(new_);
    SettledTruth(At(s, k0));
    AddEnabled(s, keys, new_);
    var s1 := InsertDirect(s, lookup).0;
    StepTruth(s, keys, DoInsert(lookup), k);
    InsertEffect(s, lookup, k);
    StepReady(s1, keys, DoInsert(new_));
    StepTruth(s1, keys, DoInsert(new_), k);
    InsertEffect(s1, new_, k);
    SettledTruth(At(s1, k0));
    KvInsertAt(s1, row);
    assert Stamp(lookup, RedisKv) == lookup;
  }

  lemma AddEffectDirect(s: State, keys: iset<PartitionKey>, new_: Row, k: PartitionKey)
    requires LockerInv(s, keys) && LockerAllowed(s, keys, AddLocker(new_)) && k in keys && !s.mode.Enabled?
    requires !AddRefused(s, new_)
    ensures AddOutcome(s, keys, new_, k)
  {
    hide KeyString, Pending, ReplayRow, IndexSafe, Orderly, LookupId, Violates, Unclaimed, InUse, Apart;
    var k0, row := KeyOf(new_), Stamp(new_, PostgresOnly);
    SettledTruth(At(s, k0));
    assert Allowed(s, keys, DoInsert(new_));
    StepReady(s, keys, DoInsert(new_));
    StepTruth(s, keys, DoInsert(new_), k);
    InsertEffect(s, new_, k);
    SameClaims(s, new_, PostgresOnly);
    PgInsertPending(s, row);
  }

  // What adding a locker does when it is not refused, in every mode.
  lemma AddEffect(s: State, keys: iset<PartitionKey>, new_: Row, k: PartitionKey)
    requires LockerInv(s, keys) && LockerAllowed(s, keys, AddLocker(new_)) && k in keys && !AddRefused(s, new_)
    ensures AddOutcome(s, keys, new_, k)
  {
    hide AddOutcome;
    if s.mode.Enabled? { AddEffectEnabled(s, keys, new_, k); } else { AddEffectDirect(s, keys, new_, k); }
  }

  lemma PgInsertPending(s: State, row: Row)
    ensures At(PgInsert(s, row).0, KeyOf(row)).pending == At(s, KeyOf(row)).pending
    ensures PgInsert(s, row).1.Ok? ==> KeyOf(row) in PgInsert(s, row).0.pg
  {
    hide KeyString, Pending, Violates;
  }

  lemma AddInUse(s: State, keys: iset<PartitionKey>, new_: Row)
    requires InUse(s, keys) && new_.LockerRow? && KeyOf(new_) in keys && ReverseLookup(LookupIdOf(new_)) in keys
    ensures InUse(InsertLocker(s, new_).0, keys)
  {
    hide KeyString, Pending, ReplayRow, LookupId, Violates, InUse;
    InsertInUse(s, keys, LookupFor(Stamp(new_, RedisKv)));
    InsertInUse(s, keys, new_);
    InsertInUse(InsertDirect(s, LookupFor(Stamp(new_, RedisKv))).0, keys, new_);
  }

  lemma InsertInUse(s: State, keys: iset<PartitionKey>, row: Row)
    requires InUse(s, keys) && KeyOf(row) in keys
    ensures InUse(InsertDirect(s, row).0, keys)
  {
    hide KeyString, Violates;
    var s' := InsertDirect(s, row).0;
    assert forall i, q :: q in Stream(s'.streams, i) ==> q in Stream(s.streams, i) || QueryKey(q) == KeyOf(row);
  }

  lemma AddInv(s: State, keys: iset<PartitionKey>, new_: Row)
    requires LockerInv(s, keys) && LockerAllowed(s, keys, AddLocker(new_))
    ensures LockerInv(InsertLocker(s, new_).0, keys)
  {
    hide KeyString, Pending, ReplayRow, IndexSafe, Ready, LookupId, Violates, Unclaimed, At, InsertLocker, InUse;
    var s' := InsertLocker(s, new_).0;
    AddReply(s, new_);
    if !AddRefused(s, new_) {
      AddEffect(s, keys, new_, KeyOf(new_));
      AddInUse(s, keys, new_);
      forall id | ReverseLookup(id) in keys
        ensures LookupSound(s', keys, id)
      {
        AddKeepsLookups(s, keys, new_, id);
      }
      forall k | k in keys && k.Locker?
        ensures LockerComplete(s', keys, k)
      {
        AddKeepsLockers(s, keys, new_, k);
      }
    }
  }

  lemma FreshTruth(s: State, k: PartitionKey)
    requires At(s, k) == Cell(None, [], None)
    ensures TruthOf(s, k) == None
  {
    SettledTruth(At(s, k));
  }

  lemma AddKeepsLookups(s: State, keys: iset<PartitionKey>, new_: Row, id: string)
    requires LockerInv(s, keys) && LockerAllowed(s, keys, AddLocker(new_)) && !AddRefused(s, new_)
    requires ReverseLookup(id) in keys
    ensures LookupSound(InsertLocker(s, new_).0, keys, id)
  {
    hide KeyString, Pending, ReplayRow, IndexSafe, Ready, LookupId, Violates, Unclaimed, At, InsertLocker, InUse;
    var s' := InsertLocker(s, new_).0;
    var k0, kl := KeyOf(new_), ReverseLookup(id);
    AddEffect(s, keys, new_, kl);
    AddEffect(s, keys, new_, k0);
    FreshTruth(s, k0);
    if id == LookupIdOf(new_) && s.mode.Enabled? {
      assert LeadsTo(TruthOf(s', kl), k0) && HasLookupId(TruthOf(s', k0), id);
    } else if TruthOf(s, kl).Some? {
      assert LookupSound(s, keys, id);
      var k :| k in keys && LeadsTo(TruthOf(s, kl), k) && HasLookupId(TruthOf(s, k), id);
      NotALookup(s, keys, k);
      AddEffect(s, keys, new_, k);
    }
  }

  lemma NotALookup(s: State, keys: iset<PartitionKey>, k: PartitionKey)
    requires Ready(s, keys) && TruthOf(s, k).Some? && TruthOf(s, k).value.LockerRow?
    ensures k.Locker?
  {
    hide KeyString, Pending, ReplayRow, IndexSafe;
    TruthKeyed(s, k);
  }

  lemma AddKeepsLockers(s: State, keys: iset<PartitionKey>, new_: Row, k: PartitionKey)
    requires LockerInv(s, keys) && LockerAllowed(s, keys, AddLocker(new_)) && !AddRefused(s, new_)
    requires k in keys && k.Locker?
    ensures LockerComplete(InsertLocker(s, new_).0, keys, k)
  {
    hide KeyString, Pending, ReplayRow, IndexSafe, Ready, LookupId, Violates, Unclaimed, At, InsertLocker, InUse;
    AddEffect(s, keys, new_, k);
    assert LockerComplete(s, keys, k);
    AddEffect(s, keys, new_, ReverseLookup(LookupIdOf(new_)));
    if TruthOf(s, k).Some? {
      AddEffect(s, keys, new_, ReverseLookup(LookupIdOf(TruthOf(s, k).value)));
      if s.mode.Enabled? { AddEnabledFresh(s, keys, new_); }
    }
  }

  lemma AddEnabledFresh(s: State, keys: iset<PartitionKey>, new_: Row)
    requires LockerInv(s, keys) && LockerAllowed(s, keys, AddLocker(new_)) && s.mode.Enabled? && !AddRefused(s, new_)
    ensures TruthOf(s, ReverseLookup(LookupIdOf(new_))) == None
  {
    hide InsertDirect, InsertLocker, LockerInv, LockerAllowed, AddRefused;
    AddEnabled(s, keys, new_);
  }

  // ----- removing -----

  // Removing a locker is deleting it, then deleting its lookup if it was there.
  lemma RemoveEffect(s: State, keys: iset<PartitionKey>, k0: PartitionKey, k: PartitionKey)
    requires LockerInv(s, keys) && LockerAllowed(s, keys, RemoveLocker(k0)) && k in keys
    ensures var s' := DeleteLocker(s, k0).0;
            var o := TruthOf(s, k0);
            && (o.Some? ==> o.value.LockerRow?)
            && Ready(s', keys)
            && TruthOf(s', k) == (if k == k0 || (o.Some? && k == ReverseLookup(LookupIdOf(o.value))) then None
                                  else TruthOf(s, k))
            && (k != k0 && (o.None? || k != ReverseLookup(LookupIdOf(o.value))) ==> At(s', k) == At(s, k))
  {
    hide KeyString, Pending, ReplayRow, IndexSafe, Orderly, LookupId, At, InUse, Apart;
    var o := TruthOf(s, k0);
    assert LockerComplete(s, keys, k0) && Sound(s, k0);
    FindRefines(s, k0);
    var s1 := DeleteById(s, k0).0;
    StepReady(s, keys, DoDelete(k0));
    StepTruth(s, keys, DoDelete(k0), k);
    DeleteEffect(s, k0, k);
    if o.Some? {
      var kl := ReverseLookup(LookupIdOf(o.value));
      StepReady(s1, keys, DoDelete(kl));
      StepTruth(s1, keys, DoDelete(kl), k);
      DeleteEffect(s1, kl, k);
    }
  }

  lemma RemoveKeepsLookups(s: State, keys: iset<PartitionKey>, k0: PartitionKey, id: string)
    requires LockerInv(s, keys) && LockerAllowed(s, keys, RemoveLocker(k0)) && ReverseLookup(id) in keys
    ensures LookupSound(DeleteLocker(s, k0).0, keys, id)
  {
    hide KeyString, Pending, ReplayRow, IndexSafe, Ready, LookupId, At, DeleteLocker, InUse;
    var s', kl := DeleteLocker(s, k0).0, ReverseLookup(id);
    RemoveEffect(s, keys, k0, kl);
    if TruthOf(s', kl).Some? {
      assert LookupSound(s, keys, id);
      var k :| k in keys && LeadsTo(TruthOf(s, kl), k) && HasLookupId(TruthOf(s, k), id);
      NotALookup(s, keys, k);
      RemoveEffect(s, keys, k0, k);
    }
  }

  lemma RemoveKeepsLockers(s: State, keys: iset<PartitionKey>, k0: PartitionKey, k: PartitionKey)
    requires LockerInv(s, keys) && LockerAllowed(s, keys, RemoveLocker(k0)) && k in keys && k.Locker?
    ensures LockerComplete(DeleteLocker(s, k0).0, keys, k)
  {
    hide KeyString, Pending, ReplayRow, IndexSafe, Ready, LookupId, DeleteLocker, InUse;
    var s' := DeleteLocker(s, k0).0;
    RemoveEffect(s, keys, k0, k);
    assert LockerComplete(s, keys, k);
    var o := TruthOf(s', k);
    if o.Some? {
      RemoveEffect(s, keys, k0, ReverseLookup(LookupIdOf(o.value)));
      assert Lookup(s'.pg, k) == Lookup(s.pg, k);
    }
  }

  lemma RemoveInUse(s: State, keys: iset<PartitionKey>, k0: PartitionKey)
    requires LockerInv(s, keys) && LockerAllowed(s, keys, RemoveLocker(k0))
    ensures InUse(DeleteLocker(s, k0).0, keys)
  {
    hide KeyString, Pending, ReplayRow, IndexSafe, Ready, LookupId, At, InUse;
    assert LockerComplete(s, keys, k0);
    assert Sound(s, k0) by { ReadySound(s, keys, k0); }
    FindRefines(s, k0);
    DeleteInUse(s, keys, k0);
    if TruthOf(s, k0).Some? {
      DeleteInUse(DeleteById(s, k0).0, keys, ReverseLookup(LookupIdOf(TruthOf(s, k0).value)));
    }
  }

  lemma ReadySound(s: State, keys: iset<PartitionKey>, k: PartitionKey)
    requires Ready(s, keys) && k in keys
    ensures Sound(s, k)
  {
  }

  lemma DeleteInUse(s: State, keys: iset<PartitionKey>, k: PartitionKey)
    requires InUse(s, keys) && k in keys
    ensures InUse(DeleteById(s, k).0, keys)
  {
    hide KeyString;
    var s' := DeleteById(s, k).0;
    assert forall i, q :: q in Stream(s'.streams, i) ==> q in Stream(s.streams, i) || QueryKey(q) == k;
  }

  // Outside Disabled mode a finished removal leaves nothing in Redis, nor in Postgres once replayed.
  lemma RemoveIsComplete(s: State, keys: iset<PartitionKey>, k0: PartitionKey, schedule: seq<nat>)
    requires LockerInv(s, keys) && LockerAllowed(s, keys, RemoveLocker(k0)) && !s.mode.Disabled? && TruthOf(s, k0).Some?
    ensures TruthOf(s, k0).value.LockerRow?
    ensures var s' := DeleteLocker(s, k0).0;
            var kl := ReverseLookup(LookupIdOf(TruthOf(s, k0).value));
            && At(s', k0).cached.None? && At(s', kl).cached.None?
            && (Drained(IndexedDrainAll(s'.pg, s'.streams, schedule).1) ==>
                  k0 !in IndexedDrainAll(s'.pg, s'.streams, schedule).0
                  && kl !in IndexedDrainAll(s'.pg, s'.streams, schedule).0)
  {
    hide KeyString, Pending, ReplayRow, LookupId, InUse, Apart, IndexSafe;
    assert LockerComplete(s, keys, k0);
    RemoveEffect(s, keys, k0, k0);
    var s' := DeleteLocker(s, k0).0;
    var kl := ReverseLookup(LookupIdOf(TruthOf(s, k0).value));
    RemoveEffect(s, keys, k0, kl);
    DeletedMode(s, k0);
    assert Sound(s', k0) && Sound(s', kl);
    if Drained(IndexedDrainAll(s'.pg, s'.streams, schedule).1) {
      IndexedConfluence(s'.pg, s'.streams, s'.shardOf, schedule, schedule);
      assert Lookup(IndexedDrainAll(s'.pg, s'.streams, schedule).0, k0) == TruthOf(s', k0);
      assert Lookup(IndexedDrainAll(s'.pg, s'.streams, schedule).0, kl) == TruthOf(s', kl);
    }
  }

  lemma DeletedMode(s: State, k0: PartitionKey)
    ensures DeleteLocker(s, k0).0.mode == s.mode
  {
    hide KeyString, LookupId;
  }

  // Where lookup ids are not shared, a removal spares the others.
  lemma UnsharedSpares(s: State, keys: iset<PartitionKey>, k0: PartitionKey)
    requires LockerInv(s, keys) && k0 in keys && k0.Locker? && !DeleteWindow(At(s, k0))
    requires forall k :: k in keys && k != k0 && TruthOf(s, k).Some? && TruthOf(s, k).value.LockerRow?
               && TruthOf(s, k0).Some? && TruthOf(s, k0).value.LockerRow?
               && LookupIdOf(TruthOf(s, k).value) == LookupIdOf(TruthOf(s, k0).value)
               ==> Clash(TruthOf(s, k).value, TruthOf(s, k0).value)
    ensures LockerAllowed(s, keys, RemoveLocker(k0))
  {
    hide KeyString, Pending, ReplayRow, LookupId, InUse, IndexSafe;
    var o := TruthOf(s, k0);
    assert LockerComplete(s, keys, k0);
    if o.Some? {
      var lookup := TruthOf(s, ReverseLookup(LookupIdOf(o.value)));
      assert LookupSound(s, keys, LookupIdOf(o.value));
      if lookup.Some? {
        var k :| k in keys && LeadsTo(lookup, k) && HasLookupId(TruthOf(s, k), LookupIdOf(o.value));
        NotALookup(s, keys, k);
        if k != k0 { TruthsUnique(s, k, k0); }
        assert forall k' :: k' in keys && LeadsTo(lookup, k') ==> Apart(k0, k');
      }
    }
  }

  // ----- environment -----

  lemma EnvironmentKeeps(s: State, keys: iset<PartitionKey>, a: Action, k: PartitionKey)
    requires LockerInv(s, keys) && LockerAllowed(s, keys, Environment(a)) && k in keys
    ensures var s' := Step(s, a).0;
            && TruthOf(s', k) == TruthOf(s, k)
            && (forall q :: q in At(s', k).pending ==> q in At(s, k).pending)
            && (k in s.pg && (forall q :: q in At(s, k).pending ==> q.Insert?) ==> k in s'.pg)
  {
    hide KeyString, Pending, ReplayRow, IndexSafe, InUse, Apart;
    StepTruth(s, keys, a, k);
    match a {
      case DrainShard(i) =>
        SafeStep(s.pg, s.streams, i);
        DrainPending(s.pg, s.streams, s.shardOf, i, k);
      case ExpireKey(k0) => DelAt(s, k0, k);
      case SetMode(_) => assert At(Step(s, a).0, k) == At(s, k);
    }
  }

  lemma EnvironmentInUse(s: State, keys: iset<PartitionKey>, a: Action)
    requires InUse(s, keys) && (a.DrainShard? || a.ExpireKey? || a.SetMode?)
    ensures InUse(Step(s, a).0, keys)
  {
    hide KeyString, SqlUpdate;
    if a.DrainShard? {
      var qs := Stream(s.streams, a.shard);
      if qs != [] {
        assert qs[0] in Stream(s.streams, a.shard);
        assert forall i, q :: q in Stream(Step(s, a).0.streams, i) ==> q in Stream(s.streams, i);
        assert forall k :: k in IndexedStatement(s.pg, qs[0]) ==> k in s.pg || k == QueryKey(qs[0]);
      }
    }
  }

  lemma EnvironmentInv(s: State, keys: iset<PartitionKey>, a: Action)
    requires LockerInv(s, keys) && LockerAllowed(s, keys, Environment(a))
    ensures LockerInv(Step(s, a).0, keys)
  {
    hide KeyString, Pending, ReplayRow, IndexSafe, Ready, LookupId, At, Step, InUse;
    var s' := Step(s, a).0;
    StepReady(s, keys, a);
    EnvironmentInUse(s, keys, a);
    forall id | ReverseLookup(id) in keys
      ensures LookupSound(s', keys, id)
    {
      assert LookupSound(s, keys, id);
      EnvironmentKeeps(s, keys, a, ReverseLookup(id));
      forall k | k in keys { EnvironmentKeeps(s, keys, a, k); }
    }
    forall k | k in keys && k.Locker?
      ensures LockerComplete(s', keys, k)
    {
      assert LockerComplete(s, keys, k);
      EnvironmentKeeps(s, keys, a, k);
      var o := TruthOf(s, k);
      if o.Some? { EnvironmentKeeps(s, keys, a, ReverseLookup(LookupIdOf(o.value))); }
    }
  }

  // ----- whole runs -----

  lemma RemoveInv(s: State, keys: iset<PartitionKey>, k0: PartitionKey)
    requires LockerInv(s, keys) && LockerAllowed(s, keys, RemoveLocker(k0))
    ensures LockerInv(DeleteLocker(s, k0).0, keys)
  {
    hide KeyString, Pending, ReplayRow, IndexSafe, Ready, LookupId, At, DeleteLocker, InUse;
    RemoveEffect(s, keys, k0, k0);
    RemoveInUse(s, keys, k0);
    forall id | ReverseLookup(id) in keys { RemoveKeepsLookups(s, keys, k0, id); }
    forall k | k in keys && k.Locker? { RemoveKeepsLockers(s, keys, k0, k); }
  }

  // What an addition and a removal promise their callers.
  lemma AddPromise(s: State, keys: iset<PartitionKey>, new_: Row)
    requires LockerInv(s, keys) && LockerAllowed(s, keys, AddLocker(new_))
    ensures var (s', r) := InsertLocker(s, new_);
            && LockerInv(s', keys)
            && (r.Ok? <==> !AddRefused(s, new_))
            && (r.Ok? ==> r.value == Stamp(new_, InsertScheme(s.mode)) && TruthOf(s', KeyOf(new_)) == Some(r.value))
            && (r.Err? ==> s' == s)
  {
    hide KeyString, Pending, ReplayRow, IndexSafe, Ready, LookupId, Violates, Unclaimed, At, InsertLocker, InUse;
    AddInv(s, keys, new_);
    AddReply(s, new_);
    if !AddRefused(s, new_) { AddEffect(s, keys, new_, KeyOf(new_)); }
  }

  lemma RemoveCount(s: State, keys: iset<PartitionKey>, k: PartitionKey)
    requires LockerInv(s, keys) && LockerAllowed(s, keys, RemoveLocker(k))
    ensures DeleteLocker(s, k).1 == (if TruthOf(s, k).Some? then 1 else 0) <==> CountGuard(s, k)
  {
    hide KeyString, Pending, ReplayRow, IndexSafe, LookupId, InUse, At, FindById, DeleteById;
    ReadySound(s, keys, k);
    DeleteRefines(s, k);
  }

  lemma RemovePromise(s: State, keys: iset<PartitionKey>, k: PartitionKey)
    requires LockerInv(s, keys) && LockerAllowed(s, keys, RemoveLocker(k))
    ensures var s' := DeleteLocker(s, k).0;
            && LockerInv(s', keys) && TruthOf(s', k) == None
            && (DeleteLocker(s, k).1 == (if TruthOf(s, k).Some? then 1 else 0) <==> CountGuard(s, k))
            && (TruthOf(s, k).Some? ==>
                  TruthOf(s, k).value.LockerRow? && TruthOf(s', ReverseLookup(LookupIdOf(TruthOf(s, k).value))) == None)
  {
    hide KeyString, Pending, ReplayRow, IndexSafe, Ready, LookupId, At, DeleteLocker, InUse;
    RemoveInv(s, keys, k);
    RemoveEffect(s, keys, k, k);
    RemoveCount(s, keys, k);
    assert LockerComplete(s, keys, k);
    if TruthOf(s, k).Some? { RemoveEffect(s, keys, k, ReverseLookup(LookupIdOf(TruthOf(s, k).value))); }
  }

  lemma {:induction false} LockerRunInv(s: State, keys: iset<PartitionKey>, actions: seq<LockerAction>)
    requires LockerInv(s, keys) && LockerAllowedRun(s, keys, actions)
    ensures LockerInv(LockerRun(s, actions), keys)
    decreases actions
  {
    hide KeyString, Pending, ReplayRow, LockerInv, LockerAllowed, InsertLocker, DeleteLocker, Step;
    if actions != [] {
      match actions[0] {
        case AddLocker(row) =>
          assert row.LockerRow? by { AddedAreLockers(s, keys, row); }
          AddInv(s, keys, row);
        case RemoveLocker(k) => RemoveInv(s, keys, k);
        case Environment(a) => EnvironmentInv(s, keys, a);
      }
      LockerRunInv(LockerStep(s, actions[0]), keys, actions[1..]);
    }
  }

  lemma AddedAreLockers(s: State, keys: iset<PartitionKey>, row: Row)
    requires LockerAllowed(s, keys, AddLocker(row))
    ensures row.LockerRow?
  {
  }

  // After any run of additions, removals, replays, expiries and mode changes, a search is right unless, and only
  // unless, it is misled.
  lemma SearchAfterRun(s: State, keys: iset<PartitionKey>, actions: seq<LockerAction>, h: string, m: string, c: string)
    requires LockerInv(s, keys) && LockerAllowedRun(s, keys, actions) && LookupKey(m, c, h) in keys
    requires NoUndrainedDelete(LockerRun(s, actions), h, m, c)
    ensures var s' := LockerRun(s, actions);
            RightAnswer(s', h, m, c, FindByLookup(s', h, m, c)) <==> !Misled(s', h, m, c)
  {
    LockerRunInv(s, keys, actions);
    FindByLookupRight(LockerRun(s, actions), keys, h, m, c);
  }

  // A vault that has only used Postgres so far can start such a run.
  lemma StartLockers(s: State, keys: iset<PartitionKey>)
    requires s.redis == map[] && Drained(s.streams) && IndexSafe(s.pg, s.streams) && Distinct(keys)
    requires forall k :: k in s.pg ==> KeyOf(s.pg[k]) == k && !k.ReverseLookup? && k in keys
    requires forall k :: k in s.pg && s.pg[k].LockerRow? ==> ReverseLookup(LookupIdOf(s.pg[k])) in keys
    ensures LockerInv(s, keys)
  {
    hide KeyString, LookupId, IndexSafe;
    EmptyPending(s);
    forall k
      ensures TruthOf(s, k) == Lookup(s.pg, k)
    {
      SettledTruth(At(s, k));
    }
    StartReady(s, keys);
  }

  // ----- what the conditions rule out -----

  // Two column triples with one lookup id: after the first is added, a search for either returns it.
  lemma TwinColumns(s: State, new_: Row, h: string, m: string, c: string)
    requires s.mode.Enabled? && new_.LockerRow? && InsertLocker(s, new_).1.Ok?
    requires LookupId(m, c, h) == LookupIdOf(new_)
    ensures var s' := InsertLocker(s, new_).0;
            && FindByLookup(s', h, m, c) == Ok(Stamp(new_, RedisKv))
            && (Misled(s', h, m, c) <==> !HasColumns(new_, h, m, c))
  {
    hide KeyString, LookupId;
    LookupNotLocker(new_);
  }

  // For instance, a separator that moves from the merchant to the customer.
  lemma SeparatorMoves(s: State, l: string, h: string, data: seq<byte>)
    requires s.mode.Enabled? && s.redis == map[]
    ensures var row := LockerRow(l, "a_b", "c", data, 0, h, None, None);
            var s' := InsertLocker(s, row).0;
            FindByLookup(s', h, "a", "b_c") == Ok(Stamp(row, RedisKv)) && !HasColumns(row, h, "a", "b_c")
  {
    var row := LockerRow(l, "a_b", "c", data, 0, h, None, None);
    assert LookupId("a", "b_c", h) == LookupIdOf(row) by {
      assert "a" + "_" + ("b_c" + "_" + h) == "a_b_c_" + h;
      assert "a_b" + "_" + ("c" + "_" + h) == "a_b_c_" + h;
    }
    AddReply(s, row);
    TwinColumns(s, row, h, "a", "b_c");
  }

  // A locker id used again with another hash: the addition is refused, but its lookup stays and leads to the row
  // that has the id.
  lemma ReusedIdMisleads(s: State, new_: Row)
    requires s.mode.Enabled? && new_.LockerRow?
    requires KeyString(KeyOf(new_)) in s.redis && KeyString(ReverseLookup(LookupIdOf(new_))) !in s.redis
    ensures var (s', r) := InsertLocker(s, new_);
            && r == Err(Duplicate)
            && FindByLookup(s', new_.lockerHashId, new_.merchantId, new_.customerId) == Ok(s.redis[KeyString(KeyOf(new_))])
  {
    hide KeyString, LookupId;
    LookupNotLocker(new_);
  }

  // The lookup that an addition leaves behind, column by column.
  lemma LookupWritten(s: State, new_: Row)
    requires s.mode.Enabled? && new_.LockerRow? && InsertLocker(s, new_).1.Ok?
    ensures var id := "locker_" + new_.merchantId + "_" + new_.customerId + "_" + new_.lockerHashId;
            var key := "locker_" + new_.merchantId + "_" + new_.customerId + "_" + new_.lockerId;
            Lookup(InsertLocker(s, new_).0.redis, "reverse_lookup_" + id)
            == Some(LookupRow(id, id, key, "locker", Some(RedisKv)))
  {
    hide KeyString;
    var m, c, h, l := new_.merchantId, new_.customerId, new_.lockerHashId, new_.lockerId;
    var id := "locker_" + m + "_" + c + "_" + h;
    assert LookupIdOf(new_) == id by { assert "locker_" + (m + "_" + (c + "_" + h)) == id; }
    PrintedForms(id, "", "", []);
    PrintedForms(m, c, l, []);
    LookupNotLocker(new_);
  }
}

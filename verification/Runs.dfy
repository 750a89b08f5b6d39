/** Whole runs of the store: client operations, replay, expiry and mode changes in any order. */
module Runs {
  import opened Wrappers
  import opened Keys
  import opened Rows
  import opened Replay
  import opened KvStore
  import opened Refinement
  import opened Indexes

  datatype Action =
    | DoFind(key: PartitionKey)
    | DoInsert(row: Row)
    | DoUpdate(key: PartitionKey, update: VaultUpdate)
    | DoDelete(key: PartitionKey)
    | DrainShard(shard: nat)
    | ExpireKey(key: PartitionKey)
    | SetMode(mode: KvState)

  datatype Reply = RowReply(result: Result<Row>) | Done

  // The drainer's statement runs under every unique index.
  ghost function DrainState(s: State, shard: nat): State {
    var (pg, streams) := IndexedDrain(s.pg, s.streams, shard);
    s.(pg := pg, streams := streams)
  }

  function Expire(s: State, k: PartitionKey): State {
    s.(redis := s.redis - {KeyString(k)})
  }

  ghost function Step(s: State, a: Action): (State, Reply) {
    match a
    case DoFind(k) => (s, RowReply(FindById(s, k)))
    case DoInsert(row) =>
      var (s', r) := InsertDirect(s, row);
      (s', RowReply(r))
    case DoUpdate(k, u) =>
      var (s', r) := UpdateById(s, k, u);
      (s', RowReply(r))
    case DoDelete(k) => (DeleteById(s, k).0, Done)
    case DrainShard(i) => (DrainState(s, i), Done)
    case ExpireKey(k) => (Expire(s, k), Done)
    case SetMode(mode) => (s.(mode := mode), Done)
  }

  ghost function Run(s: State, actions: seq<Action>): (State, seq<Reply>)
    decreases actions
  {
    if actions == [] then (s, [])
    else
      var (s1, reply) := Step(s, actions[0]);
      var (s2, replies) := Run(s1, actions[1..]);
      (s2, [reply] + replies)
  }

  // ----- when a run is as good as a plain table -----

  // `keys` are the keys in use. Redis cannot tell apart two keys with one printed form, so a run is judged on
  // keys of which no two share theirs.

  // No live Redis row differs from its Postgres row.
  ghost predicate Fresh(s: State, keys: iset<PartitionKey>) {
    forall k :: k in keys && KeyString(k) in s.redis ==> Lookup(s.pg, k) == Some(s.redis[KeyString(k)])
  }

  // A key expires only when its entries are replayed; Disabled is entered with empty streams and left only when
  // no live Redis row is stale; a row that is inserted takes no unique index entry another row holds or waits for.
  ghost predicate Allowed(s: State, keys: iset<PartitionKey>, a: Action) {
    match a
    case DoFind(k) => k in keys && !DeleteWindow(At(s, k))
    case DoInsert(row) => KeyOf(row) in keys && InsertGuard(s, row) && (Refused(s, row) || Unclaimed(s, row))
    case DoUpdate(k, u) => k in keys && k.Vault? && UpdateGuard(s, k, u)
    case DoDelete(k) => k in keys
    case DrainShard(_) => true
    case ExpireKey(k) => k in keys && At(s, k).pending == []
    case SetMode(mode) =>
      (mode.Disabled? ==> Drained(s.streams)) && (s.mode.Disabled? && !mode.Disabled? ==> Fresh(s, keys))
  }

  ghost predicate AllowedRun(s: State, keys: iset<PartitionKey>, actions: seq<Action>)
    decreases actions
  {
    actions == [] || (Allowed(s, keys, actions[0]) && AllowedRun(Step(s, actions[0]).0, keys, actions[1..]))
  }

  ghost predicate Ready(s: State, keys: iset<PartitionKey>) {
    && Orderly(s)
    && IndexSafe(s.pg, s.streams)
    && Distinct(keys)
    && (s.mode.Disabled? ==> Drained(s.streams))
    && forall k :: k in keys ==> Sound(s, k)
  }

  // ----- the plain table: no caches, no streams, no marks -----

  type Plain = map<PartitionKey, Row>

  function PlainStep(t: Plain, a: Action): (Plain, Reply) {
    match a
    case DoFind(k) => (t, RowReply(if k in t then Ok(t[k]) else Err(NotFound)))
    case DoInsert(row) =>
      if KeyOf(row) in t then (t, RowReply(Err(Duplicate)))
      else (t[KeyOf(row) := Business(row)], RowReply(Ok(Business(row))))
    case DoUpdate(k, u) =>
      if k !in t then (t, RowReply(Err(NotFound)))
      else (t[k := Business(SqlUpdate(u, t[k]))], RowReply(Ok(Business(SqlUpdate(u, t[k])))))
    case DoDelete(k) => (t - {k}, Done)
    case DrainShard(_) | ExpireKey(_) | SetMode(_) => (t, Done)
  }

  function PlainRun(t: Plain, actions: seq<Action>): (Plain, seq<Reply>)
    decreases actions
  {
    if actions == [] then (t, [])
    else
      var (t1, reply) := PlainStep(t, actions[0]);
      var (t2, replies) := PlainRun(t1, actions[1..]);
      (t2, [reply] + replies)
  }

  function BusinessRow(o: Option<Row>): Option<Row> {
    if o.Some? then Some(Business(o.value)) else None
  }

  function BusinessReply(r: Reply): Reply {
    match r
    case RowReply(Ok(row)) => RowReply(Ok(Business(row)))
    case _ => r
  }

  function BusinessReplies(rs: seq<Reply>): seq<Reply> {
    if rs == [] then [] else [BusinessReply(rs[0])] + BusinessReplies(rs[1..])
  }

  ghost predicate Represents(t: Plain, s: State, keys: iset<PartitionKey>) {
    forall k :: k in keys ==> Lookup(t, k) == BusinessRow(TruthOf(s, k))
  }

  // ----- one step -----

  lemma DrainAt(s: State, shard: nat, k: PartitionKey)
    requires Orderly(s) && IndexSafe(s.pg, s.streams)
    ensures TruthOf(DrainState(s, shard), k) == TruthOf(s, k)
    ensures Sound(s, k) ==> Sound(DrainState(s, shard), k)
    ensures At(s, k).pending == [] ==> At(DrainState(s, shard), k) == At(s, k)
  {
    hide KeyString, ReplayRow, Pending, IndexSafe;
    SafeStep(s.pg, s.streams, shard);
    DrainKeepsTruth(s.pg, s.streams, s.shardOf, shard, k);
    DrainPending(s.pg, s.streams, s.shardOf, shard, k);
  }

  lemma DrainOrderly(s: State, shard: nat)
    requires Orderly(s)
    ensures Orderly(DrainState(s, shard))
  {
    hide KeyString;
    var qs := Stream(s.streams, shard);
    var s' := DrainState(s, shard);
    if qs != [] {
      assert qs[0] in qs;
      assert forall i, q :: q in Stream(s'.streams, i) ==> q in Stream(s.streams, i);
    }
  }

  lemma ExpireAt(s: State, k: PartitionKey, k': PartitionKey)
    requires Apart(k, k') && At(s, k).pending == [] && Sound(s, k')
    ensures TruthOf(Expire(s, k), k') == TruthOf(s, k') && Sound(Expire(s, k), k')
  {
    hide KeyString, ReplayRow, Pending;
    DelAt(s, k, k');
  }

  lemma ModeAt(s: State, keys: iset<PartitionKey>, mode: KvState, k: PartitionKey)
    requires k in keys && Sound(s, k) && Allowed(s, keys, SetMode(mode))
    ensures var s' := s.(mode := mode); TruthOf(s', k) == TruthOf(s, k) && Sound(s', k)
  {
    hide KeyString;
    if At(s, k).pending == [] { SettledTruth(At(s, k)); }
    assert At(s.(mode := mode), k) == At(s, k);
  }

  lemma EmptyPending(s: State)
    requires Drained(s.streams)
    ensures forall k :: At(s, k).pending == []
  {
    hide KeyString;
  }

  // What a step does to the truth of each key, in one statement.
  lemma StepTruth(s: State, keys: iset<PartitionKey>, a: Action, k: PartitionKey)
    requires Ready(s, keys) && Allowed(s, keys, a) && k in keys
    ensures var (s', reply) := Step(s, a);
            && Sound(s', k)
            && match a {
                case DoFind(k0) => TruthOf(s', k) == TruthOf(s, k) && reply == RowReply(PlainFind(TruthOf(s, k0)))
                case DoInsert(row) =>
                  var k0, stamped := KeyOf(row), Stamp(row, InsertScheme(s.mode));
                  && reply == RowReply(PlainInsert(TruthOf(s, k0), stamped).1)
                  && TruthOf(s', k) == if k == k0 then PlainInsert(TruthOf(s, k0), stamped).0 else TruthOf(s, k)
                case DoUpdate(k0, u) =>
                  var update := StampUpdate(s, k0, u);
                  && reply == RowReply(PlainUpdate(TruthOf(s, k0), update).1)
                  && TruthOf(s', k) == if k == k0 then PlainUpdate(TruthOf(s, k0), update).0 else TruthOf(s, k)
                case DoDelete(k0) => TruthOf(s', k) == (if k == k0 then None else TruthOf(s, k)) && reply == Done
                case DrainShard(_) => TruthOf(s', k) == TruthOf(s, k) && reply == Done
                case ExpireKey(_) => TruthOf(s', k) == TruthOf(s, k) && reply == Done
                case SetMode(_) => TruthOf(s', k) == TruthOf(s, k) && reply == Done
              }
  {
    hide KeyString, ReplayRow, Pending, Apart, IndexSafe, Unclaimed;
    match a {
      case DoFind(k0) => FindRefines(s, k0);
      case DoInsert(row) =>
        InsertRefines(s, row);
        InsertEffect(s, row, k);
      case DoUpdate(k0, u) =>
        UpdateRefines(s, k0, u);
        UpdateEffect(s, k0, u, k);
      case DoDelete(k0) =>
        DeleteRefines(s, k0);
        DeleteEffect(s, k0, k);
      case DrainShard(i) => DrainAt(s, i, k);
      case ExpireKey(k0) => ExpireAt(s, k0, k);
      case SetMode(mode) => ModeAt(s, keys, mode, k);
    }
  }

  lemma StepSafe(s: State, keys: iset<PartitionKey>, a: Action)
    requires IndexSafe(s.pg, s.streams) && Allowed(s, keys, a)
    ensures IndexSafe(Step(s, a).0.pg, Step(s, a).0.streams)
  {
    hide KeyString, IndexSafe, Refused, Unclaimed, FindById;
    match a {
      case DoInsert(row) => InsertSafe(s, row);
      case DoUpdate(k, u) => UpdateSafe(s, k, u);
      case DoDelete(k) => DeleteSafe(s, k);
      case DrainShard(i) => SafeStep(s.pg, s.streams, i);
      case _ =>
    }
  }

  lemma StepReady(s: State, keys: iset<PartitionKey>, a: Action)
    requires Ready(s, keys) && Allowed(s, keys, a)
    ensures Ready(Step(s, a).0, keys)
  {
    hide KeyString, ReplayRow, Pending, IndexSafe, Apart, Unclaimed, Refused;
    forall k | k in keys
      ensures Sound(Step(s, a).0, k)
    {
      StepTruth(s, keys, a, k);
    }
    StepSafe(s, keys, a);
    match a {
      case DoInsert(row) => InsertOrderly(s, row);
      case DoUpdate(k, u) => UpdateOrderly(s, k, u);
      case DoDelete(k) => DeleteOrderly(s, k);
      case DrainShard(i) => DrainOrderly(s, i);
      case _ =>
    }
  }

  // All a comparison of replies leaves out is the mark.
  lemma OnlyMarksIgnored(row: Row, row': Row, e: Error)
    ensures Business(row) == Business(row') <==> row.(updatedBy := row'.updatedBy) == row'
    ensures BusinessReply(RowReply(Ok(row))) == BusinessReply(RowReply(Ok(row'))) <==> Business(row) == Business(row')
    ensures BusinessReply(RowReply(Err(e))) == RowReply(Err(e)) && BusinessReply(RowReply(Ok(row))) != RowReply(Err(e))
  {
  }

  lemma InsertIgnoresMarks(row: Row, scheme: StorageScheme)
    ensures Business(Stamp(row, scheme)) == Business(row)
  {
  }

  lemma UpdateIgnoresMarks(u: VaultUpdate, scheme: StorageScheme, row: Row)
    ensures Business(SqlUpdate(u.(updatedBy := scheme), row)) == Business(SqlUpdate(u, Business(row)))
  {
  }

  lemma StepRefinesAt(s: State, keys: iset<PartitionKey>, t: Plain, a: Action, k: PartitionKey)
    requires Ready(s, keys) && Represents(t, s, keys) && Allowed(s, keys, a) && k in keys
    ensures Lookup(PlainStep(t, a).0, k) == BusinessRow(TruthOf(Step(s, a).0, k))
    ensures BusinessReply(Step(s, a).1) == PlainStep(t, a).1
  {
    hide KeyString, ReplayRow, Pending, Step, SqlUpdate, Business, Sound, InsertGuard, UpdateGuard, Orderly, IndexSafe,
         Unclaimed, Refused;
    StepTruth(s, keys, a, k);
    match a {
      case DoFind(k0) => assert Lookup(t, k0) == BusinessRow(TruthOf(s, k0));
      case DoInsert(row) =>
        assert Lookup(t, KeyOf(row)) == BusinessRow(TruthOf(s, KeyOf(row)));
        InsertIgnoresMarks(row, InsertScheme(s.mode));
      case DoUpdate(k0, u) =>
        assert Lookup(t, k0) == BusinessRow(TruthOf(s, k0));
        if k0 in t {
          UpdateIgnoresMarks(u, SchemeFor(s, k0), TruthOf(s, k0).value);
        }
      case _ =>
    }
  }

  lemma StepRefines(s: State, keys: iset<PartitionKey>, t: Plain, a: Action)
    requires Ready(s, keys) && Represents(t, s, keys) && Allowed(s, keys, a)
    ensures Represents(PlainStep(t, a).0, Step(s, a).0, keys)
    ensures BusinessReply(Step(s, a).1) == PlainStep(t, a).1
  {
    hide KeyString, ReplayRow, Pending, PlainStep, Sound, Orderly, Truth, Ready, IndexSafe, InsertDirect, UpdateById,
         DeleteById, FindById, BusinessRow;
    forall k | k in keys
      ensures Lookup(PlainStep(t, a).0, k) == BusinessRow(TruthOf(Step(s, a).0, k))
    {
      StepRefinesAt(s, keys, t, a, k);
    }
    match a {
      case DoFind(k) => StepRefinesAt(s, keys, t, a, k);
      case DoInsert(row) => StepRefinesAt(s, keys, t, a, KeyOf(row));
      case DoUpdate(k, _) => StepRefinesAt(s, keys, t, a, k);
      case _ => PlainDone(t, a);
    }
  }

  lemma PlainDone(t: Plain, a: Action)
    requires !a.DoFind? && !a.DoInsert? && !a.DoUpdate?
    ensures PlainStep(t, a).1 == Done
  {
  }

  // ----- whole runs -----

  // Every allowed run answers as the plain table does and leaves the truths equal to it.
  lemma {:induction false} RunRefines(s: State, keys: iset<PartitionKey>, t: Plain, actions: seq<Action>)
    requires Ready(s, keys) && Represents(t, s, keys) && AllowedRun(s, keys, actions)
    ensures var (s', replies) := Run(s, actions);
            var (t', plain) := PlainRun(t, actions);
            Ready(s', keys) && Represents(t', s', keys) && BusinessReplies(replies) == plain
    decreases actions
  {
    hide KeyString, ReplayRow, Pending, Ready, Represents, Allowed, Step, PlainStep;
    if actions != [] {
      StepReady(s, keys, actions[0]);
      StepRefines(s, keys, t, actions[0]);
      var (s1, reply) := Step(s, actions[0]);
      var (t1, _) := PlainStep(t, actions[0]);
      RunRefines(s1, keys, t1, actions[1..]);
      var replies := Run(s1, actions[1..]).1;
      assert ([reply] + replies)[1..] == replies;
    }
  }

  // However the streams such a run leaves behind are drained, Postgres ends up as the plain table.
  lemma DrainedRunIsPlain(s: State, keys: iset<PartitionKey>, t: Plain, actions: seq<Action>, schedule: seq<nat>)
    requires Ready(s, keys) && Represents(t, s, keys) && AllowedRun(s, keys, actions)
    requires var s' := Run(s, actions).0; Drained(IndexedDrainAll(s'.pg, s'.streams, schedule).1)
    ensures var s' := Run(s, actions).0;
            forall k :: k in keys ==>
              BusinessRow(Lookup(IndexedDrainAll(s'.pg, s'.streams, schedule).0, k)) == Lookup(PlainRun(t, actions).0, k)
  {
    hide KeyString, Pending, IndexSafe, Run, PlainRun;
    RunRefines(s, keys, t, actions);
    var s' := Run(s, actions).0;
    IndexedConfluence(s'.pg, s'.streams, s'.shardOf, schedule, schedule);
    forall k | k in keys
      ensures BusinessRow(Lookup(IndexedDrainAll(s'.pg, s'.streams, schedule).0, k)) == Lookup(PlainRun(t, actions).0, k)
    {
      assert Truth(s'.pg, s'.streams, s'.shardOf, k) == TruthOf(s', k);
    }
  }

  // ----- retiring Redis -----

  lemma {:induction false} SoftKillAddsNothing(s: State, actions: seq<Action>)
    requires s.mode.SoftKill? && forall a :: a in actions ==> !a.SetMode?
    ensures Run(s, actions).0.redis.Keys <= s.redis.Keys && Run(s, actions).0.mode.SoftKill?
    decreases actions
  {
    hide KeyString, ReplayRow, Pending, IndexedDrain;
    if actions != [] {
      assert actions[0] in actions;
      SoftKillAddsNothing(Step(s, actions[0]).0, actions[1..]);
    }
  }

  // With the streams empty, leaving SoftKill for Disabled changes no answer, and is allowed.
  lemma HandOver(s: State, keys: iset<PartitionKey>)
    requires Ready(s, keys) && s.mode.SoftKill? && Drained(s.streams)
    ensures Allowed(s, keys, SetMode(Disabled)) && Ready(s.(mode := Disabled), keys)
    ensures forall k :: k in keys ==> FindById(s.(mode := Disabled), k) == FindById(s, k)
  {
    hide KeyString, ReplayRow, Pending, IndexSafe;
    StepReady(s, keys, SetMode(Disabled));
    EmptyPending(s);
    forall k | k in keys
      ensures FindById(s.(mode := Disabled), k) == FindById(s, k)
    {
      SettledTruth(At(s, k));
      FindRefines(s, k);
    }
  }

  // Leaving Disabled changes no answer exactly when no live Redis row is stale.
  lemma LeavingDisabled(s: State, keys: iset<PartitionKey>, mode: KvState)
    requires s.mode.Disabled? && !mode.Disabled?
    ensures (forall k :: k in keys ==> FindById(s.(mode := mode), k) == FindById(s, k)) <==> Fresh(s, keys)
  {
    hide KeyString;
    if !Fresh(s, keys) {
      var k :| k in keys && KeyString(k) in s.redis && Lookup(s.pg, k) != Some(s.redis[KeyString(k)]);
      assert FindById(s.(mode := mode), k) != FindById(s, k);
    }
  }

  // While Disabled, an update makes the key's Redis row stale exactly when there is one and the update changes the
  // row; a delete, exactly when there is one.
  lemma DisabledChanges(s: State, keys: iset<PartitionKey>, k: PartitionKey, u: VaultUpdate)
    requires s.mode.Disabled? && Distinct(keys) && k in keys && Fresh(s, keys)
    ensures Fresh(UpdateById(s, k, u).0, keys) <==>
            (KeyString(k) in s.redis && k in s.pg ==> SqlUpdate(StampUpdate(s, k, u), s.pg[k]) == s.pg[k])
    ensures Fresh(DeleteById(s, k).0, keys) <==> KeyString(k) !in s.redis
  {
    hide KeyString, SqlUpdate;
    if KeyString(k) in s.redis { assert Lookup(s.pg, k) == Some(s.redis[KeyString(k)]); }
    var s' := UpdateById(s, k, u).0;
    forall k' | k' in keys && k' != k && KeyString(k') in s.redis
      ensures KeyString(k') != KeyString(k) && Lookup(s'.pg, k') == Some(s.redis[KeyString(k')])
      ensures Lookup(DeleteById(s, k).0.pg, k') == Some(s.redis[KeyString(k')])
    {
      assert Apart(k, k');
    }
    if KeyString(k) in s.redis && k in s.pg && Fresh(s', keys) {
      assert Lookup(s'.pg, k) == Some(s'.redis[KeyString(k)]);
    }
    if KeyString(k) in s.redis {
      assert KeyString(k) in DeleteById(s, k).0.redis && Lookup(DeleteById(s, k).0.pg, k) == None;
    }
  }

  // A vault that has only used Postgres so far can start a run, on any keys that Redis can tell apart.
  lemma StartReady(s: State, keys: iset<PartitionKey>)
    requires s.redis == map[] && Drained(s.streams) && IndexSafe(s.pg, s.streams) && Distinct(keys)
    requires forall k :: k in s.pg ==> KeyOf(s.pg[k]) == k
    ensures Ready(s, keys)
  {
    hide KeyString, IndexSafe;
    EmptyPending(s);
  }

  // What the environment does when it acts: the drainer takes the oldest entry of its shard and no other, a key that
  // expires is gone from Redis and no other is, the mode is set.
  lemma EnvironmentActs(s: State, shard: nat, k: PartitionKey, mode: KvState)
    ensures var s' := Step(s, DrainShard(shard)).0;
            && Stream(s'.streams, shard) == (if Stream(s.streams, shard) == [] then [] else Stream(s.streams, shard)[1..])
            && (forall i :: i != shard ==> Stream(s'.streams, i) == Stream(s.streams, i))
            && s'.redis == s.redis && s'.mode == s.mode
    ensures var s' := Step(s, ExpireKey(k)).0;
            && s'.redis.Keys == s.redis.Keys - {KeyString(k)} && (forall f :: f in s'.redis ==> s'.redis[f] == s.redis[f])
            && s'.pg == s.pg && s'.streams == s.streams && s'.mode == s.mode
    ensures Step(s, SetMode(mode)).0 == s.(mode := mode)
  {
    hide KeyString, IndexedStatement;
  }
}

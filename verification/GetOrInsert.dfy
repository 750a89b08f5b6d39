/** Concurrent "find, insert, on duplicate find again", one store command at a time. */
module GetOrInsert {
  import opened Wrappers
  import opened Hex
  import opened Keys
  import opened Rows
  import opened Replay
  import opened KvStore
  import opened Refinement
  import opened Indexes
  import opened Runs

  // Where a call stands. `Lost` is a call whose insert was refused as a duplicate.
  datatype Pc =
    | Start
    | ReadMissed
    | Missed
    | Pushing(row: Row)
    | Lost
    | LostMissed
    | Finished(result: Result<Row>)

  datatype Call = Call(new_: Row, pc: Pc)
  {
    function Key(): PartitionKey { KeyOf(new_) }

    predicate Idle() { pc.Start? || pc.Finished? }

    // Between the first read and the insert.
    predicate Reading() { pc.ReadMissed? || pc.Missed? }
  }

  // One command of one call.
  function Advance(s: State, c: Call): (State, Pc) {
    var k := c.Key();
    match c.pc
    case Start => (s, FirstRead(s, k, ReadMissed, Missed))
    case ReadMissed => (s, if k in s.pg then Finished(Ok(s.pg[k])) else Missed)
    case Missed =>
      var row := Stamp(c.new_, InsertScheme(s.mode));
      if InsertScheme(s.mode).PostgresOnly? then
        var (s', r) := PgInsert(s, row);
        (s', if r.Ok? then Finished(r) else Lost)
      else
        var (s', set_) := SetNx(s, k, row);
        (s', if set_ then Pushing(row) else Lost)
    case Pushing(row) => (Push(s, k, Insert(row)), Finished(Ok(row)))
    case Lost => (s, FirstRead(s, k, LostMissed, Finished(Err(Backend))))
    case LostMissed => (s, if k in s.pg then Finished(Ok(s.pg[k])) else Finished(Err(Backend)))
    case Finished(_) => (s, c.pc)
  }

  // A find begins at Redis, unless KV is disabled.
  function FirstRead(s: State, k: PartitionKey, redisMiss: Pc, pgMiss: Pc): Pc {
    if FindScheme(s.mode).RedisKv? then
      if KeyString(k) in s.redis then Finished(Ok(s.redis[KeyString(k)])) else redisMiss
    else if k in s.pg then Finished(Ok(s.pg[k])) else pgMiss
  }

  // The store, the calls, and the history: HSETNX replies KeySet, entries appended, entries replayed.
  datatype System = System(
    store: State,
    calls: seq<Call>,
    wins: multiset<Query>,
    appended: seq<Query>,
    replayed: Streams)

  datatype Event =
    | Spawn(row: Row)
    | CallStep(i: nat)
    | Replays(shard: nat)
    | Expires(key: PartitionKey)
    | Switch(mode: KvState)

  ghost function Next(y: System, e: Event): System {
    match e
    case Spawn(row) => y.(calls := y.calls + [Call(row, Start)])
    case CallStep(i) => if i < |y.calls| then Moved(y, i) else y
    case Replays(shard) =>
      var qs := Stream(y.store.streams, shard);
      if qs == [] then y
      else y.(store := DrainState(y.store, shard),
              replayed := y.replayed[shard := Stream(y.replayed, shard) + [qs[0]]])
    case Expires(k) => y.(store := Expire(y.store, k))
    case Switch(mode) => y.(store := y.store.(mode := mode))
  }

  function Moved(y: System, i: nat): System
    requires i < |y.calls|
  {
    var c := y.calls[i];
    var (store, pc) := Advance(y.store, c);
    y.(store := store,
       calls := y.calls[i := c.(pc := pc)],
       wins := if c.pc.Missed? && pc.Pushing? then y.wins + multiset{Insert(pc.row)} else y.wins,
       appended := if c.pc.Pushing? then y.appended + [Insert(c.pc.row)] else y.appended)
  }

  ghost function Trace(y: System, events: seq<Event>): System
    decreases events
  {
    if events == [] then y else Trace(Next(y, events[0]), events[1..])
  }

  // The environment, over keys that Redis can tell apart: a generated id that must be unique is in no other row,
  // entry or call; a key expires only when replayed and not between a call's first read and its insert; the mode
  // changes only while no call is under way.
  ghost predicate Permitted(y: System, keys: iset<PartitionKey>, e: Event) {
    match e
    case Spawn(row) =>
      && KeyOf(row) in keys && Unclaimed(y.store, row)
      && forall c :: c in y.calls && Clash(c.new_, row) ==> c.Key() == KeyOf(row)
    case CallStep(_) => true
    case Replays(_) => true
    case Expires(k) =>
      && k in keys && At(y.store, k).pending == []
      && forall c :: c in y.calls && c.Key() == k ==> !c.Reading() && !c.pc.Pushing?
    case Switch(mode) =>
      (forall c :: c in y.calls ==> c.Idle()) && (mode.Disabled? ==> Drained(y.store.streams))
  }

  ghost predicate PermittedTrace(y: System, keys: iset<PartitionKey>, events: seq<Event>)
    decreases events
  {
    events == [] || (Permitted(y, keys, events[0]) && PermittedTrace(Next(y, events[0]), keys, events[1..]))
  }

  // ----- the invariant, key by key -----

  // The row everyone agrees on.
  function Canon(c: Cell): Option<Row> {
    if c.cached.Some? then c.cached else c.stored
  }

  ghost predicate CellInv(mode: KvState, c: Cell) {
    && (c.cached.None? ==> c.pending == [])
    && (mode.Disabled? ==> c.pending == [] && (c.cached.Some? ==> c.stored == c.cached))
    && (forall q :: q in c.pending ==> q.Insert?)
    && (c.cached.Some? && (c.pending != [] || c.stored.Some?) ==> c.Truth() == c.cached)
  }

  ghost predicate CallInv(mode: KvState, c: Cell, pc: Pc) {
    match pc
    case Start => true
    case ReadMissed => mode.SoftKill? ==> c.cached.None?
    case Missed => if mode.Enabled? then c.cached.None? ==> c.stored.None? else mode.SoftKill? ==> c.cached.None?
    case Pushing(row) => mode.Enabled? && c == Cell(Some(row), [], None)
    case Lost => Canon(c).Some?
    case LostMissed => c.stored.Some?
    case Finished(Ok(row)) => Canon(c) == Some(row)
    case Finished(Err(_)) => false
  }

  // A row in Redis alone is one that exactly one call is about to push.
  ghost predicate PushInv(c: Cell, calls: seq<Call>, k: PartitionKey) {
    && (c.cached.Some? && c.pending == [] && c.stored.None? ==>
          exists i :: 0 <= i < |calls| && calls[i].Key() == k && calls[i].pc.Pushing?)
    && (forall i, j :: 0 <= i < j < |calls| && calls[i].Key() == k && calls[j].Key() == k ==>
          !(calls[i].pc.Pushing? && calls[j].pc.Pushing?))
  }

  ghost predicate KeyInv(y: System, k: PartitionKey) {
    && CellInv(y.store.mode, At(y.store, k))
    && PushInv(At(y.store, k), y.calls, k)
    && forall i :: 0 <= i < |y.calls| && y.calls[i].Key() == k ==> CallInv(y.store.mode, At(y.store, k), y.calls[i].pc)
  }

  // A call pushes its own row, marked for the KV path.
  ghost predicate PushKeyed(y: System) {
    forall c :: c in y.calls && c.pc.Pushing? ==> c.pc.row == Stamp(c.new_, RedisKv)
  }

  // No call competes with a row, an entry or a call of another key for a unique index entry.
  ghost predicate Claims(y: System) {
    && (forall c :: c in y.calls ==> Unclaimed(y.store, c.new_))
    && (forall c, d :: c in y.calls && d in y.calls && Clash(c.new_, d.new_) ==> c.Key() == d.Key())
  }

  ghost predicate Inv(y: System, keys: iset<PartitionKey>) {
    && Orderly(y.store)
    && IndexSafe(y.store.pg, y.store.streams)
    && Distinct(keys)
    && PushKeyed(y)
    && Claims(y)
    && (forall c :: c in y.calls ==> c.Key() in keys)
    && forall k :: k in keys ==> KeyInv(y, k)
  }

  // Where both exist, the Redis row and the Postgres row are one.
  lemma CachedIsStored(mode: KvState, c: Cell)
    requires CellInv(mode, c) && c.stored.Some?
    ensures Canon(c) == c.stored
  {
    InsertsKeepRow(c.stored, c.pending);
  }

  // What one step may do to a cell without upsetting the calls that already looked at it.
  ghost predicate Evolves(mode: KvState, c: Cell, c': Cell) {
    && (Canon(c).Some? ==> Canon(c') == Canon(c))
    && (c.stored.Some? ==> c'.stored.Some?)
    && (mode.SoftKill? && c.cached.None? ==> c'.cached.None?)
    && (mode.Enabled? && (c.cached.None? ==> c.stored.None?) ==> (c'.cached.None? ==> c'.stored.None?))
  }

  lemma StableCall(mode: KvState, c: Cell, c': Cell, pc: Pc)
    requires CallInv(mode, c, pc) && Evolves(mode, c, c') && (pc.Pushing? ==> c' == c)
    ensures CallInv(mode, c', pc)
  {
  }

  lemma PgInsertAt(s: State, row: Row, k: PartitionKey)
    ensures At(PgInsert(s, row).0, k) ==
            if k == KeyOf(row) && !Violates(s.pg, row) then At(s, k).(stored := Some(row)) else At(s, k)
  {
    hide KeyString, Pending;
  }

  lemma SetNxAt(s: State, k: PartitionKey, row: Row, k': PartitionKey)
    requires Apart(k, k')
    ensures At(SetNx(s, k, row).0, k') ==
            if k' == k && At(s, k).cached.None? then At(s, k').(cached := Some(row)) else At(s, k')
  {
    hide KeyString, Pending;
    SetAt(s, k, row, k');
  }

  lemma AdvanceElsewhere(s: State, c: Call, k: PartitionKey)
    requires Apart(c.Key(), k) && k != c.Key()
    requires c.pc.Pushing? ==> KeyOf(c.pc.row) == c.Key()
    ensures At(Advance(s, c).0, k) == At(s, k)
  {
    hide KeyString, Pending;
    var row := Stamp(c.new_, InsertScheme(s.mode));
    match c.pc {
      case Missed =>
        PgInsertAt(s, row, k);
        SetNxAt(s, c.Key(), row, k);
      case Pushing(r) => PushAt(s, c.Key(), Insert(r), k);
      case _ =>
    }
  }

  // The call's own key: the insert.
  lemma AdvanceInsert(s: State, c: Call)
    requires c.pc.Missed? && Unclaimed(s, c.new_)
    requires CellInv(s.mode, At(s, c.Key())) && CallInv(s.mode, At(s, c.Key()), c.pc)
    ensures var (s', pc) := Advance(s, c);
            var x, x' := At(s, c.Key()), At(s', c.Key());
            && CellInv(s.mode, x') && CallInv(s.mode, x', pc) && Evolves(s.mode, x, x')
            && (pc.Pushing? ==> x.cached.None?)
            && (x' == x || pc.Pushing? || x'.stored.Some?)
            && (s.mode.Enabled? && x.cached.Some? ==> x' == x)
  {
    hide KeyString, Pending, ReplayRow, Violates, Unclaimed;
    var row := Stamp(c.new_, InsertScheme(s.mode));
    SameClaims(s, c.new_, InsertScheme(s.mode));
    assert Violates(s.pg, c.new_) ==> c.Key() in s.pg by { ClaimsHold(s, c.new_); }
    PgInsertAt(s, row, c.Key());
    SetNxAt(s, c.Key(), row, c.Key());
    SettledTruth(Cell(None, [], Some(row)));
  }

  lemma ClaimsHold(s: State, row: Row)
    requires Unclaimed(s, row)
    ensures Violates(s.pg, row) <==> KeyOf(row) in s.pg
  {
  }

  lemma AdvanceFind(s: State, c: Call)
    requires !c.pc.Missed? && !c.pc.Pushing?
    requires CellInv(s.mode, At(s, c.Key())) && CallInv(s.mode, At(s, c.Key()), c.pc)
    ensures var (s', pc) := Advance(s, c);
            s' == s && CallInv(s.mode, At(s, c.Key()), pc) && !pc.Pushing?
  {
    hide KeyString, Pending, ReplayRow;
    var x := At(s, c.Key());
    if x.stored.Some? { CachedIsStored(s.mode, x); }
  }

  lemma AdvancePush(s: State, c: Call)
    requires c.pc.Pushing? && KeyOf(c.pc.row) == c.Key()
    requires CellInv(s.mode, At(s, c.Key())) && CallInv(s.mode, At(s, c.Key()), c.pc)
    ensures var (s', pc) := Advance(s, c);
            var x, x' := At(s, c.Key()), At(s', c.Key());
            && CellInv(s.mode, x') && CallInv(s.mode, x', pc) && Evolves(s.mode, x, x') && x'.pending != []
  {
    hide KeyString, Pending, ReplayRow;
    var x := At(s, c.Key());
    PushAt(s, c.Key(), Insert(c.pc.row), c.Key());
    AppendTruth(x, x.cached, Insert(c.pc.row));
    SettledTruth(x);
  }

  // ----- steps of the system -----

  lemma CallStepKey(y: System, keys: iset<PartitionKey>, i: nat, k: PartitionKey)
    requires Inv(y, keys) && i < |y.calls| && k in keys
    ensures KeyInv(Moved(y, i), k)
    ensures Canon(At(y.store, k)).Some? ==> Canon(At(Moved(y, i).store, k)) == Canon(At(y.store, k))
  {
    hide KeyString, Pending, ReplayRow, CellInv, Orderly, At, Advance, Violates, IndexSafe, Claims, Apart;
    var c := y.calls[i];
    assert c in y.calls;
    var k0 := c.Key();
    assert KeyInv(y, k0) && KeyInv(y, k);
    var (s', pc) := Advance(y.store, c);
    var calls' := Moved(y, i).calls;
    var x, x' := At(y.store, k), At(s', k);
    assert s'.mode == y.store.mode by { AdvanceMode(y.store, c); }
    if k != k0 {
      assert Apart(k0, k);
      AdvanceElsewhere(y.store, c, k);
      assert forall j | 0 <= j < |calls'| && calls'[j].Key() == k :: calls'[j] == y.calls[j];
      assert forall j | 0 <= j < |calls'| && y.calls[j].Key() == k :: calls'[j] == y.calls[j];
    } else {
      OwnCell(y, keys, i);
      forall j | 0 <= j < |calls'| && calls'[j].Key() == k
        ensures CallInv(y.store.mode, x', calls'[j].pc)
      {
        if j != i {
          assert CallInv(y.store.mode, x, y.calls[j].pc);
          StableCall(y.store.mode, x, x', y.calls[j].pc);
        }
      }
      PushersMove(x, x', y.calls, i, pc);
    }
  }

  lemma PushersMove(x: Cell, x': Cell, calls: seq<Call>, i: nat, pc: Pc)
    requires i < |calls| && PushInv(x, calls, calls[i].Key())
    requires forall j :: 0 <= j < |calls| && calls[j].Key() == calls[i].Key() && calls[j].pc.Pushing? ==> x.cached.Some?
    requires pc.Pushing? ==> x.cached.None?
    requires x' == x || pc.Pushing? || x'.stored.Some? || x'.pending != []
    requires calls[i].pc.Pushing? ==> x' != x
    ensures PushInv(x', calls[i := calls[i].(pc := pc)], calls[i].Key())
  {
    var calls' := calls[i := calls[i].(pc := pc)];
    assert calls'[i].Key() == calls[i].Key();
    if pc.Pushing? {
      assert forall j :: 0 <= j < |calls| && calls[j].Key() == calls[i].Key() ==> !calls[j].pc.Pushing?;
    } else if x'.cached.Some? && x'.pending == [] && x'.stored.None? {
      var j :| 0 <= j < |calls| && calls[j].Key() == calls[i].Key() && calls[j].pc.Pushing?;
      assert calls'[j] == calls[j];
    }
  }

  lemma AdvanceMode(s: State, c: Call)
    ensures Advance(s, c).0.mode == s.mode && Advance(s, c).0.shardOf == s.shardOf
  {
    hide KeyString, Pending, ReplayRow, Violates;
  }

  // Everything the moving call does to its own key, and what the other calls on that key see.
  lemma OwnCell(y: System, keys: iset<PartitionKey>, i: nat)
    requires Inv(y, keys) && i < |y.calls|
    ensures var c := y.calls[i];
            var (s', pc) := Advance(y.store, c);
            var x, x' := At(y.store, c.Key()), At(s', c.Key());
            && CellInv(y.store.mode, x') && CallInv(y.store.mode, x', pc) && Evolves(y.store.mode, x, x')
            && (pc.Pushing? ==> x.cached.None?)
            && (x' == x || pc.Pushing? || x'.stored.Some? || x'.pending != [])
            && (c.pc.Pushing? ==> x' != x)
            && forall j :: 0 <= j < |y.calls| && j != i && y.calls[j].Key() == c.Key() && y.calls[j].pc.Pushing? ==> x' == x
  {
    hide KeyString, Pending, ReplayRow, CellInv, Orderly, At, Violates, Unclaimed, IndexSafe, Apart;
    var c := y.calls[i];
    assert c in y.calls;
    assert KeyInv(y, c.Key());
    assert CallInv(y.store.mode, At(y.store, c.Key()), c.pc);
    if c.pc.Missed? {
      AdvanceInsert(y.store, c);
    } else if c.pc.Pushing? {
      AdvancePush(y.store, c);
    } else {
      AdvanceFind(y.store, c);
    }
  }

  // What a call moves in the store keeps the indexes safe and the claims of every call.
  lemma AdvanceSafe(s: State, c: Call)
    requires IndexSafe(s.pg, s.streams) && Unclaimed(s, c.new_)
    requires c.pc.Pushing? ==> c.pc.row == Stamp(c.new_, RedisKv)
    ensures var s' := Advance(s, c).0; IndexSafe(s'.pg, s'.streams)
  {
    hide KeyString, Violates, IndexSafe, Unclaimed;
    SameClaims(s, c.new_, RedisKv);
    SameClaims(s, c.new_, PostgresOnly);
    PgInsertSafe(s, Stamp(c.new_, PostgresOnly));
    PushSafe(s, c.Key(), Insert(Stamp(c.new_, RedisKv)));
  }

  lemma AdvanceClaims(s: State, c: Call, row: Row)
    requires Unclaimed(s, row) && (Clash(c.new_, row) ==> c.Key() == KeyOf(row))
    requires c.pc.Pushing? ==> c.pc.row == Stamp(c.new_, RedisKv)
    ensures Unclaimed(Advance(s, c).0, row)
  {
    hide KeyString, Violates;
    var s' := Advance(s, c).0;
    assert forall scheme :: Clash(Stamp(c.new_, scheme), row) == Clash(c.new_, row);
    assert forall i, q :: q in Stream(s'.streams, i) ==> q in Stream(s.streams, i) || q == Insert(Stamp(c.new_, RedisKv));
  }

  lemma DrainClaims(s: State, shard: nat, row: Row)
    requires Unclaimed(s, row)
    ensures Unclaimed(DrainState(s, shard), row)
  {
    hide KeyString, Clash, Statement, SqlUpdate, KeyOf;
    var qs := Stream(s.streams, shard);
    if qs != [] {
      StatementClash(s.pg, qs[0]);
      assert qs[0] in Stream(s.streams, shard);
      assert forall i, q :: q in Stream(DrainState(s, shard).streams, i) ==> q in Stream(s.streams, i);
    }
  }

  lemma CallStepClaims(y: System, i: nat)
    requires Claims(y) && PushKeyed(y) && IndexSafe(y.store.pg, y.store.streams) && i < |y.calls|
    ensures Claims(Moved(y, i)) && PushKeyed(Moved(y, i))
    ensures IndexSafe(Moved(y, i).store.pg, Moved(y, i).store.streams)
  {
    hide KeyString, Pending, Unclaimed, IndexSafe, Violates, Clash;
    var c, y' := y.calls[i], Moved(y, i);
    assert c in y.calls;
    AdvanceSafe(y.store, c);
    forall d | d in y'.calls
      ensures Unclaimed(y'.store, d.new_) && (exists e :: e in y.calls && e.new_ == d.new_)
    {
      assert d in y.calls || d == y'.calls[i];
      var e := if d in y.calls then d else c;
      assert e in y.calls && e.new_ == d.new_;
      AdvanceClaims(y.store, c, d.new_);
    }
  }

  lemma CallStepInv(y: System, keys: iset<PartitionKey>, i: nat)
    requires Inv(y, keys) && i < |y.calls|
    ensures Inv(Moved(y, i), keys)
  {
    hide KeyString, Pending, ReplayRow, At, KeyInv, Violates, IndexSafe, Claims, Distinct;
    var c := y.calls[i];
    assert c in y.calls;
    var y' := Moved(y, i);
    CallStepClaims(y, i);
    forall d | d in y'.calls
      ensures d.Key() in keys
    {
      assert d in y.calls || d == y'.calls[i];
    }
    if c.pc.Pushing? {
      PushOrderly(y.store, c.Key(), Insert(c.pc.row));
    }
    forall k | k in keys
      ensures KeyInv(y', k)
    {
      CallStepKey(y, keys, i, k);
    }
  }

  lemma SpawnKey(y: System, row: Row, k: PartitionKey)
    requires KeyInv(y, k)
    ensures KeyInv(Next(y, Spawn(row)), k)
  {
    hide KeyString, Pending, ReplayRow, CellInv, At;
    var calls' := y.calls + [Call(row, Start)];
    if i :| 0 <= i < |y.calls| && y.calls[i].Key() == k && y.calls[i].pc.Pushing? {
      assert calls'[i] == y.calls[i];
    }
  }

  lemma ReplaysKey(y: System, shard: nat, k: PartitionKey)
    requires Orderly(y.store) && IndexSafe(y.store.pg, y.store.streams) && KeyInv(y, k)
    ensures KeyInv(Next(y, Replays(shard)), k)
    ensures Canon(At(y.store, k)).Some? ==> Canon(At(Next(y, Replays(shard)).store, k)) == Canon(At(y.store, k))
  {
    hide KeyString, Pending, ReplayRow, IndexSafe;
    var x, x' := At(y.store, k), At(DrainState(y.store, shard), k);
    SafeStep(y.store.pg, y.store.streams, shard);
    DrainPending(y.store.pg, y.store.streams, y.store.shardOf, shard, k);
    DrainAt(y.store, shard, k);
    if x.pending == [] {
      assert x' == x;
    } else {
      assert x.pending[0] in x.pending;
      if x.stored.Some? { InsertsKeepRow(x.stored, x.pending); }
      assert x'.stored.Some? || x'.pending == x.pending;
      assert x'.pending == x.pending || x'.pending == x.pending[1..];
    }
    forall i | 0 <= i < |y.calls| && y.calls[i].Key() == k
      ensures CallInv(y.store.mode, x', y.calls[i].pc)
    {
      StableCall(y.store.mode, x, x', y.calls[i].pc);
    }
  }

  lemma ExpiresKey(y: System, keys: iset<PartitionKey>, k0: PartitionKey, k: PartitionKey)
    requires Inv(y, keys) && Permitted(y, keys, Expires(k0)) && k in keys
    ensures KeyInv(Next(y, Expires(k0)), k)
    ensures Canon(At(y.store, k)).Some? ==> Canon(At(Next(y, Expires(k0)).store, k)) == Canon(At(y.store, k))
  {
    hide KeyString, Pending, ReplayRow, IndexSafe, Claims;
    assert KeyInv(y, k) && Apart(k0, k);
    var x, x' := At(y.store, k), At(Expire(y.store, k0), k);
    DelAt(y.store, k0, k);
    if k == k0 {
      assert x' == x.(cached := None) && x.pending == [];
      SettledTruth(x);
      forall i | 0 <= i < |y.calls| && y.calls[i].Key() == k
        ensures CallInv(y.store.mode, x', y.calls[i].pc)
      {
        assert y.calls[i] in y.calls;
      }
    }
  }

  lemma SwitchKey(y: System, keys: iset<PartitionKey>, mode: KvState, k: PartitionKey)
    requires KeyInv(y, k) && Permitted(y, keys, Switch(mode))
    ensures KeyInv(Next(y, Switch(mode)), k)
    ensures Canon(At(Next(y, Switch(mode)).store, k)) == Canon(At(y.store, k))
  {
    hide KeyString, ReplayRow;
    var x := At(y.store, k);
    assert At(y.store.(mode := mode), k) == x;
    assert forall i | 0 <= i < |y.calls| :: y.calls[i] in y.calls && y.calls[i].Idle();
    if mode.Disabled? {
      assert x.pending == [];
      SettledTruth(x);
    }
  }

  lemma NextClaims(y: System, keys: iset<PartitionKey>, e: Event)
    requires Inv(y, keys) && Permitted(y, keys, e) && !e.CallStep?
    ensures var y' := Next(y, e); Claims(y') && IndexSafe(y'.store.pg, y'.store.streams)
  {
    hide KeyString, Pending, ReplayRow, KeyInv, Clash, IndexSafe, Orderly, PushKeyed, IndexedDrain;
    var y' := Next(y, e);
    match e {
      case Spawn(row) =>
        assert forall c :: c in y'.calls ==> c in y.calls || c == Call(row, Start);
        forall a, b ensures Clash(a, b) <==> Clash(b, a) { ClashSymmetric(a, b); }
      case Replays(shard) =>
        SafeStep(y.store.pg, y.store.streams, shard);
        forall c | c in y.calls { DrainClaims(y.store, shard, c.new_); }
      case _ =>
        forall c | c in y.calls { CachedClaims(y.store, y'.store, c.new_); }
    }
  }

  lemma NextInv(y: System, keys: iset<PartitionKey>, e: Event)
    requires Inv(y, keys) && Permitted(y, keys, e)
    ensures Inv(Next(y, e), keys)
  {
    hide KeyString, Pending, ReplayRow, At, KeyInv, Violates, IndexSafe, Claims, Distinct, IndexedDrain, Moved;
    var y' := Next(y, e);
    if e.CallStep? {
      if e.i < |y.calls| { CallStepInv(y, keys, e.i); }
    } else {
      NextClaims(y, keys, e);
      forall k | k in keys
        ensures KeyInv(y', k)
      {
        match e {
          case Spawn(row) => SpawnKey(y, row, k);
          case Replays(shard) => ReplaysKey(y, shard, k);
          case Expires(k0) => ExpiresKey(y, keys, k0, k);
          case Switch(mode) => SwitchKey(y, keys, mode, k);
        }
      }
      if e.Replays? { DrainOrderly(y.store, e.shard); }
      assert forall c :: c in y'.calls ==> c in y.calls || (e.Spawn? && c == Call(e.row, Start));
    }
  }

  lemma {:induction false} TraceInv(y: System, keys: iset<PartitionKey>, events: seq<Event>)
    requires Inv(y, keys) && PermittedTrace(y, keys, events)
    ensures Inv(Trace(y, events), keys)
    decreases events
  {
    hide KeyString, Pending, ReplayRow, Inv, Next, Permitted;
    if events != [] {
      NextInv(y, keys, events[0]);
      TraceInv(Next(y, events[0]), keys, events[1..]);
    }
  }

  // A store that has run nothing through Redis yet can start the system, and starts with balanced books.
  lemma StartInv(s: State, keys: iset<PartitionKey>)
    requires s.redis == map[] && Drained(s.streams) && IndexSafe(s.pg, s.streams) && Distinct(keys)
    requires forall k :: k in s.pg ==> KeyOf(s.pg[k]) == k
    ensures Inv(System(s, [], multiset{}, [], map[]), keys)
    ensures Conserved(s.streams, System(s, [], multiset{}, [], map[]))
  {
    hide KeyString, ReplayRow, IndexSafe;
    EmptyPending(s);
  }

  // ----- what the callers see -----

  // In every interleaving no call fails, all calls for one key return the same row, and it is the row the
  // key has, or will have, in Postgres.
  lemma Agreement(y: System, keys: iset<PartitionKey>, events: seq<Event>, i: nat, j: nat)
    requires Inv(y, keys) && PermittedTrace(y, keys, events)
    requires var calls := Trace(y, events).calls;
             && i < |calls| && j < |calls| && calls[i].Key() == calls[j].Key()
             && calls[i].pc.Finished? && calls[j].pc.Finished?
    ensures var z := Trace(y, events);
            && z.calls[i].pc.result.Ok? && z.calls[i].pc.result == z.calls[j].pc.result
            && ((forall c :: c in z.calls && c.Key() == z.calls[i].Key() ==> !c.pc.Pushing?) ==>
                TruthOf(z.store, z.calls[i].Key()) == Some(z.calls[i].pc.result.value))
  {
    hide KeyString, Pending, ReplayRow, Claims, IndexSafe, Orderly;
    TraceInv(y, keys, events);
    var z := Trace(y, events);
    var k := z.calls[i].Key();
    assert z.calls[i] in z.calls;
    assert KeyInv(z, k);
    var x := At(z.store, k);
    assert CallInv(z.store.mode, x, z.calls[i].pc) && CallInv(z.store.mode, x, z.calls[j].pc);
    if x.stored.Some? { InsertsKeepRow(x.stored, x.pending); }
    if x.pending == [] { SettledTruth(x); }
    if x.cached.Some? && x.pending == [] && x.stored.None? {
      var n :| 0 <= n < |z.calls| && z.calls[n].Key() == k && z.calls[n].pc.Pushing?;
      assert z.calls[n] in z.calls;
    }
  }

  // The demand on expiry is needed: two calls have both missed; one stores its row, which is replayed and
  // expires, and then the other stores its own. The two return different rows.
  lemma ExpiryInFlight(hash: seq<byte>, a: string, b: string)
    ensures var k, newA, newB := Fingerprint(hash), FingerprintRow(hash, a, None), FingerprintRow(hash, b, None);
            var (s1, won) := Advance(State(Enabled, map[], map[], map[], _ => 0), Call(newB, Missed));
            var (s2, first) := Advance(s1, Call(newB, won));
            var s3 := Expire(DrainState(s2, 0), k);
            var (s4, wonAgain) := Advance(s3, Call(newA, Missed));
            var (_, second) := Advance(s4, Call(newA, wonAgain));
            && first == Finished(Ok(FingerprintRow(hash, b, Some(RedisKv)))) && At(s2, k).pending != []
            && second == Finished(Ok(FingerprintRow(hash, a, Some(RedisKv)))) && At(s3, k).pending == []
            && Lookup(s3.pg, k) == Some(FingerprintRow(hash, b, Some(RedisKv)))
  {
    hide KeyString;
    var k, row := Fingerprint(hash), FingerprintRow(hash, b, Some(RedisKv));
    var s1 := Advance(State(Enabled, map[], map[], map[], _ => 0), Call(FingerprintRow(hash, b, None), Missed)).0;
    assert s1 == State(Enabled, map[KeyString(k) := row], map[], map[], s1.shardOf);
    var s2 := Push(s1, k, Insert(row));
    assert Stream(s2.streams, 0) == [Insert(row)];
    assert Pending([Insert(row)], k) == [Insert(row)] by { assert [Insert(row)][..0] == []; }
    var s3 := Expire(DrainState(s2, 0), k);
    assert Stream(s3.streams, 0) == [] && s3.redis == map[];
  }

  // ----- conservation -----

  // Entries won but not yet appended.
  function Unpushed(calls: seq<Call>): multiset<Query> {
    if calls == [] then multiset{}
    else Unpushed(calls[..|calls| - 1]) + PushOf(calls[|calls| - 1])
  }

  function PushOf(c: Call): multiset<Query> {
    if c.pc.Pushing? then multiset{Insert(c.pc.row)} else multiset{}
  }

  lemma MultisetSwap<T>(a: multiset<T>, p: multiset<T>, b: multiset<T>, q: multiset<T>, x: multiset<T>)
    requires a + p == b + q
    ensures (a + x) + p == (b + x) + q
  {
    assert (a + x) + p == (a + p) + x;
    assert (b + x) + q == (b + q) + x;
  }

  lemma {:induction false} UnpushedUpdate(calls: seq<Call>, i: nat, c: Call)
    requires i < |calls|
    ensures Unpushed(calls[i := c]) + PushOf(calls[i]) == Unpushed(calls) + PushOf(c)
  {
    hide PushOf;
    var n := |calls| - 1;
    if i == n {
      assert calls[i := c][..n] == calls[..n];
    } else {
      assert calls[i := c][..n] == calls[..n][i := c] && calls[i := c][n] == calls[n];
      UnpushedUpdate(calls[..n], i, c);
      assert Unpushed(calls[i := c]) == Unpushed(calls[..n][i := c]) + PushOf(calls[n]);
      MultisetSwap(Unpushed(calls[..n][i := c]), PushOf(calls[i]), Unpushed(calls[..n]), PushOf(c), PushOf(calls[n]));
    }
  }

  // The entries of one shard, in order.
  function InShard(qs: seq<Query>, shardOf: PartitionKey -> nat, shard: nat): seq<Query> {
    if qs == [] then []
    else
      var last := qs[|qs| - 1];
      InShard(qs[..|qs| - 1], shardOf, shard) + if shardOf(QueryKey(last)) == shard then [last] else []
  }

  ghost predicate Conserved(initial: Streams, y: System) {
    && PushKeyed(y)
    && Booked(y)
    && forall i :: Balanced(initial, y, i)
  }

  // The books of one step: a call wins what it comes to hold, and appends what it held.
  lemma MovedBooks(y: System, i: nat)
    requires i < |y.calls|
    ensures var y' := Moved(y, i);
            var c := y.calls[i];
            && y'.calls == y.calls[i := y'.calls[i]] && y'.calls[i].new_ == c.new_
            && y'.wins == y.wins + PushOf(y'.calls[i])
            && multiset(y'.appended) == multiset(y.appended) + PushOf(c)
            && (y'.calls[i].pc.Pushing? ==> y'.calls[i].pc.row == Stamp(c.new_, RedisKv))
  {
    hide KeyString, Violates;
  }

  lemma MovedStreams(y: System, i: nat)
    requires i < |y.calls|
    ensures var y' := Moved(y, i);
            var c := y.calls[i];
            && y'.replayed == y.replayed && y'.store.shardOf == y.store.shardOf
            && (!c.pc.Pushing? ==> y'.appended == y.appended && y'.store.streams == y.store.streams)
            && (c.pc.Pushing? ==> y'.appended == y.appended + [Insert(c.pc.row)]
                                  && y'.store == Push(y.store, c.Key(), Insert(c.pc.row)))
  {
    hide KeyString, Violates;
  }

  lemma KeepsPushKeyed(y: System, i: nat)
    requires PushKeyed(y) && i < |y.calls|
    ensures PushKeyed(Moved(y, i))
  {
    hide KeyString, Moved;
    MovedBooks(y, i);
    var y' := Moved(y, i);
    assert forall c :: c in y'.calls ==> c in y.calls || c == y'.calls[i];
  }

  lemma NothingHeld(row: Row)
    ensures PushOf(Call(row, Start)) == multiset{}
  {
  }

  lemma BooksBalance(
      w: multiset<Query>, a: multiset<Query>, u: multiset<Query>, u': multiset<Query>,
      lost: multiset<Query>, gained: multiset<Query>)
    requires w == a + u && u' + lost == u + gained
    ensures w + gained == (a + lost) + u'
  {
    forall q
      ensures (w + gained)[q] == ((a + lost) + u')[q]
    {
      assert (u' + lost)[q] == (u + gained)[q];
    }
  }

  predicate Booked(y: System) {
    y.wins == multiset(y.appended) + Unpushed(y.calls)
  }

  lemma SpawnWins(y: System, row: Row)
    requires PushKeyed(y) && Booked(y)
    ensures PushKeyed(Next(y, Spawn(row))) && Booked(Next(y, Spawn(row)))
  {
    hide KeyString, Moved, PushOf;
    var y' := Next(y, Spawn(row));
    assert y'.calls[..|y.calls|] == y.calls;
    NothingHeld(row);
    assert forall c :: c in y'.calls ==> c in y.calls || c == Call(row, Start);
  }

  lemma CallStepWins(y: System, i: nat)
    requires PushKeyed(y) && Booked(y) && i < |y.calls|
    ensures PushKeyed(Moved(y, i)) && Booked(Moved(y, i))
  {
    hide KeyString, Moved, PushOf, PushKeyed, Unpushed;
    var y' := Moved(y, i);
    KeepsPushKeyed(y, i);
    MovedBooks(y, i);
    UnpushedUpdate(y.calls, i, y'.calls[i]);
    BooksBalance(y.wins, multiset(y.appended), Unpushed(y.calls), Unpushed(y'.calls),
                 PushOf(y.calls[i]), PushOf(y'.calls[i]));
  }

  lemma NextWins(y: System, e: Event)
    requires PushKeyed(y) && Booked(y)
    ensures PushKeyed(Next(y, e)) && Booked(Next(y, e))
  {
    hide KeyString, Moved, Unpushed, Advance;
    match e {
      case Spawn(row) => SpawnWins(y, row);
      case CallStep(i) => if i < |y.calls| { CallStepWins(y, i); }
      case _ =>
    }
  }

  lemma InShardAppend(qs: seq<Query>, shardOf: PartitionKey -> nat, shard: nat, q: Query)
    ensures InShard(qs + [q], shardOf, shard) ==
            InShard(qs, shardOf, shard) + if shardOf(QueryKey(q)) == shard then [q] else []
  {
    assert (qs + [q])[..|qs|] == qs;
  }

  ghost predicate Balanced(initial: Streams, y: System, shard: nat) {
    Stream(initial, shard) + InShard(y.appended, y.store.shardOf, shard)
    == Stream(y.replayed, shard) + Stream(y.store.streams, shard)
  }

  lemma SeqShift<T>(a: seq<T>, b: seq<T>, c: seq<T>, d: seq<T>, x: T)
    requires a + b == c + d
    ensures a + (b + [x]) == c + (d + [x])
  {
    assert a + (b + [x]) == (a + b) + [x];
    assert c + (d + [x]) == (c + d) + [x];
  }

  lemma CallStepBalanced(initial: Streams, y: System, i: nat, shard: nat)
    requires PushKeyed(y) && Balanced(initial, y, shard) && i < |y.calls|
    ensures Balanced(initial, Moved(y, i), shard)
  {
    hide KeyString, InShard, Moved;
    MovedStreams(y, i);
    if y.calls[i].pc.Pushing? {
      assert y.calls[i] in y.calls;
      var q := Insert(y.calls[i].pc.row);
      InShardAppend(y.appended, y.store.shardOf, shard, q);
      SeqShift(Stream(initial, shard), InShard(y.appended, y.store.shardOf, shard),
               Stream(y.replayed, shard), Stream(y.store.streams, shard), q);
    }
  }

  lemma ReplaysBalanced(initial: Streams, y: System, i: nat, shard: nat)
    requires Balanced(initial, y, shard)
    ensures Balanced(initial, Next(y, Replays(i)), shard)
  {
    hide KeyString, InShard, Moved, Statement;
    var qs := Stream(y.store.streams, i);
    if qs != [] {
      HeadShift(Stream(y.replayed, i), qs);
      var y' := Next(y, Replays(i));
      assert Stream(y'.replayed, i) == Stream(y.replayed, i) + [qs[0]] && Stream(y'.store.streams, i) == qs[1..];
    }
  }

  lemma HeadShift<T>(c: seq<T>, d: seq<T>)
    requires d != []
    ensures (c + [d[0]]) + d[1..] == c + d
  {
  }

  lemma NextStreams(initial: Streams, y: System, e: Event, shard: nat)
    requires PushKeyed(y) && Balanced(initial, y, shard)
    ensures Balanced(initial, Next(y, e), shard)
  {
    hide KeyString, InShard, Moved;
    match e {
      case CallStep(i) =>
        if i < |y.calls| { CallStepBalanced(initial, y, i, shard); }
      case Replays(i) => ReplaysBalanced(initial, y, i, shard);
      case _ =>
    }
  }

  // Over every interleaving whatsoever: the entries appended are the winning inserts, less those whose
  // winner has not pushed yet, and per shard what was there plus what was appended is what was replayed
  // plus what is pending, in order.
  lemma {:induction false} Conservation(initial: Streams, y: System, events: seq<Event>)
    requires Conserved(initial, y)
    ensures Conserved(initial, Trace(y, events))
    decreases events
  {
    hide KeyString, Next, Balanced, Unpushed;
    if events != [] {
      var y' := Next(y, events[0]);
      NextWins(y, events[0]);
      forall i
        ensures Balanced(initial, y', i)
      {
        NextStreams(initial, y, events[0], i);
      }
      Conservation(initial, y', events[1..]);
    }
  }
}

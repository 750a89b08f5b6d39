/** Where the rows come from that concurrent "find, insert, find again" calls return, and that every call returns. */
module Validity {
  import opened Wrappers
  import opened Hex
  import opened Keys
  import opened Rows
  import opened Replay
  import opened KvStore
  import opened Refinement
  import opened Indexes
  import opened Runs
  import opened GetOrInsert

  // Equal in every column but the mark.
  predicate SameColumns(a: Row, b: Row) {
    a.(updatedBy := b.updatedBy) == b
  }

  // The m-th event brought in a call with this row, and the n-th, a step of a call while `mode` was in force,
  // gave it its mark.
  ghost predicate Proposed(y: System, events: seq<Event>, m: nat, n: nat, row: Row) {
    && m < n < |events|
    && events[m].Spawn? && KeyOf(events[m].row) == KeyOf(row) && SameColumns(row, events[m].row)
    && events[n].CallStep?
    && row.updatedBy == Some(if Trace(y, events[..n]).store.mode.Enabled? then RedisKv else PostgresOnly)
  }

  ghost predicate Valid(y: System, events: seq<Event>, k: PartitionKey, row: Row) {
    || TruthOf(y.store, k) == Some(row)
    || (KeyOf(row) == k && exists m: nat, n: nat :: Proposed(y, events, m, n, row))
  }

  // ----- traces, from the end -----

  lemma {:induction false} TraceSnoc(y: System, events: seq<Event>, e: Event)
    ensures Trace(y, events + [e]) == Next(Trace(y, events), e)
    decreases events
  {
    hide Next;
    if events == [] {
      assert [e][1..] == [];
    } else {
      assert (events + [e])[0] == events[0] && (events + [e])[1..] == events[1..] + [e];
      TraceSnoc(Next(y, events[0]), events[1..], e);
    }
  }

  lemma {:induction false} PermittedSnoc(y: System, keys: iset<PartitionKey>, events: seq<Event>, e: Event)
    requires PermittedTrace(y, keys, events + [e])
    ensures PermittedTrace(y, keys, events) && Permitted(Trace(y, events), keys, e)
    decreases events
  {
    hide Next, Permitted;
    if events != [] {
      assert (events + [e])[0] == events[0] && (events + [e])[1..] == events[1..] + [e];
      PermittedSnoc(Next(y, events[0]), keys, events[1..], e);
    }
  }

  lemma Init(events: seq<Event>)
    requires events != []
    ensures events == events[..|events| - 1] + [events[|events| - 1]]
  {
  }

  lemma ProposedLater(y: System, events: seq<Event>, e: Event, m: nat, n: nat, row: Row)
    requires Proposed(y, events, m, n, row)
    ensures Proposed(y, events + [e], m, n, row)
  {
    assert (events + [e])[..n] == events[..n];
  }

  lemma ValidLater(y: System, events: seq<Event>, e: Event, k: PartitionKey, row: Row)
    requires Valid(y, events, k, row)
    ensures Valid(y, events + [e], k, row)
  {
    hide Trace, SameColumns;
    if TruthOf(y.store, k) != Some(row) {
      var m: nat, n: nat :| Proposed(y, events, m, n, row);
      ProposedLater(y, events, e, m, n, row);
    }
  }

  // Every call was brought in by an event.
  lemma {:induction false} CallsSpawned(y: System, events: seq<Event>, c: Call)
    requires y.calls == [] && c in Trace(y, events).calls
    ensures exists m: nat :: m < |events| && events[m] == Spawn(c.new_)
    decreases |events|
  {
    if events != [] {
      var init, e := events[..|events| - 1], events[|events| - 1];
      Init(events);
      TraceSnoc(y, init, e);
      var before := Trace(y, init);
      if e == Spawn(c.new_) {
        assert events[|events| - 1] == Spawn(c.new_);
      } else {
        var d := NextCall(before, e, c);
        CallsSpawned(y, init, d);
        var m: nat :| m < |init| && init[m] == Spawn(d.new_);
        assert events[m] == Spawn(c.new_);
      }
    }
  }

  // A call after an event that did not bring it in was there before.
  lemma NextCall(y: System, e: Event, c: Call) returns (d: Call)
    requires c in Next(y, e).calls && e != Spawn(c.new_)
    ensures d in y.calls && d.new_ == c.new_
  {
    hide KeyString, Advance, IndexedDrain;
    if c in y.calls {
      d := c;
    } else {
      d := y.calls[e.i];
    }
  }

  // ----- who changes what a key's readers agree on -----

  // Only the insert of a call that missed does, and it puts that call's row there, marked for the mode in force.
  lemma CanonStep(y: System, keys: iset<PartitionKey>, e: Event, k: PartitionKey)
    requires Inv(y, keys) && Permitted(y, keys, e) && k in keys
    ensures var o, o' := Canon(At(y.store, k)), Canon(At(Next(y, e).store, k));
            o' == o ||
            (e.CallStep? && e.i < |y.calls| && y.calls[e.i].Key() == k && o'.Some?
             && SameColumns(o'.value, y.calls[e.i].new_) && KeyOf(o'.value) == k
             && o'.value.updatedBy == Some(if y.store.mode.Enabled? then RedisKv else PostgresOnly))
  {
    hide KeyString, Pending, ReplayRow, Violates, IndexSafe, Claims, Orderly, Apart, At, IndexedDrain;
    assert KeyInv(y, k);
    match e {
      case Spawn(_) =>
      case Replays(shard) => CanonReplay(y, shard, k);
      case Expires(k0) => CanonExpiry(y, keys, k0, k);
      case Switch(mode) => SwitchKey(y, keys, mode, k);
      case CallStep(i) => if i < |y.calls| { CanonCall(y, keys, i, k); }
    }
  }

  lemma CanonReplay(y: System, shard: nat, k: PartitionKey)
    requires Orderly(y.store) && IndexSafe(y.store.pg, y.store.streams) && KeyInv(y, k)
    ensures Canon(At(Next(y, Replays(shard)).store, k)) == Canon(At(y.store, k))
  {
    hide KeyString, Pending, ReplayRow, IndexSafe, Orderly;
    ReplaysKey(y, shard, k);
    if At(y.store, k).pending == [] { DrainAt(y.store, shard, k); }
  }

  lemma CanonExpiry(y: System, keys: iset<PartitionKey>, k0: PartitionKey, k: PartitionKey)
    requires Inv(y, keys) && Permitted(y, keys, Expires(k0)) && k in keys
    ensures Canon(At(Next(y, Expires(k0)).store, k)) == Canon(At(y.store, k))
  {
    hide KeyString, Pending, ReplayRow, IndexSafe, Claims, Orderly;
    ExpiresKey(y, keys, k0, k);
    assert Apart(k0, k);
    DelAt(y.store, k0, k);
  }

  lemma CanonCall(y: System, keys: iset<PartitionKey>, i: nat, k: PartitionKey)
    requires Inv(y, keys) && i < |y.calls| && k in keys
    ensures var o, o', c := Canon(At(y.store, k)), Canon(At(Moved(y, i).store, k)), y.calls[i];
            o' == o ||
            (c.Key() == k && o'.Some? && SameColumns(o'.value, c.new_) && KeyOf(o'.value) == k
             && o'.value.updatedBy == Some(if y.store.mode.Enabled? then RedisKv else PostgresOnly))
  {
    hide KeyString, Pending, ReplayRow, Violates, IndexSafe, Claims, Orderly, Apart, At, Advance;
    var c, s := y.calls[i], y.store;
    assert c in y.calls;
    assert KeyInv(y, k) && KeyInv(y, c.Key());
    assert CallInv(s.mode, At(s, c.Key()), c.pc);
    CallStepKey(y, keys, i, k);
    if c.Key() != k {
      assert Apart(c.Key(), k);
      AdvanceElsewhere(s, c, k);
    } else if c.pc.Missed? {
      CanonInsert(s, c);
    } else if !c.pc.Pushing? {
      AdvanceFind(s, c);
    }
  }

  lemma CanonInsert(s: State, c: Call)
    requires c.pc.Missed?
    ensures var o, o' := Canon(At(s, c.Key())), Canon(At(Advance(s, c).0, c.Key()));
            o' == o || o.Some? ||
            (o'.Some? && SameColumns(o'.value, c.new_) && KeyOf(o'.value) == c.Key()
             && o'.value.updatedBy == Some(if s.mode.Enabled? then RedisKv else PostgresOnly))
  {
    hide KeyString, Pending, Violates, At;
    PgInsertAt(s, Stamp(c.new_, InsertScheme(s.mode)), c.Key());
    SetNxAt(s, c.Key(), Stamp(c.new_, InsertScheme(s.mode)), c.Key());
  }

  // ----- validity -----

  lemma {:induction false} CanonValid(y: System, keys: iset<PartitionKey>, events: seq<Event>, k: PartitionKey)
    requires Inv(y, keys) && y.calls == [] && PermittedTrace(y, keys, events) && k in keys
    ensures var o := Canon(At(Trace(y, events).store, k)); o.Some? ==> Valid(y, events, k, o.value)
    decreases |events|
  {
    hide KeyString, Pending, ReplayRow, Inv, Permitted, Next, At, SameColumns;
    if events == [] {
      StartCanon(y, keys, k);
    } else {
      var init, e := events[..|events| - 1], events[|events| - 1];
      Init(events);
      PermittedSnoc(y, keys, init, e);
      TraceSnoc(y, init, e);
      TraceInv(y, keys, init);
      CanonValid(y, keys, init, k);
      var before := Trace(y, init);
      CanonStep(before, keys, e, k);
      var o, o' := Canon(At(before.store, k)), Canon(At(Next(before, e).store, k));
      if o' == o {
        if o.Some? { ValidLater(y, init, e, k, o.value); }
      } else {
        var c := before.calls[e.i];
        CallsSpawned(y, init, c);
        var m: nat :| m < |init| && init[m] == Spawn(c.new_);
        assert events[..|events| - 1] == init && events[m] == Spawn(c.new_);
        assert Proposed(y, events, m, |events| - 1, o'.value);
      }
    }
  }

  lemma StartCanon(y: System, keys: iset<PartitionKey>, k: PartitionKey)
    requires Inv(y, keys) && y.calls == [] && k in keys
    ensures Canon(At(y.store, k)) == TruthOf(y.store, k)
  {
    hide KeyString, Pending, ReplayRow, IndexSafe, Claims, Orderly;
    assert KeyInv(y, k);
    var x := At(y.store, k);
    if x.pending == [] { SettledTruth(x); }
  }

  // Every row a call returns was the key's row before the trace began, or is, column for column, the row some call
  // for that key came with, marked for the mode in which it went in.
  lemma OnlyProposedRows(y: System, keys: iset<PartitionKey>, events: seq<Event>, i: nat)
    requires Inv(y, keys) && y.calls == [] && PermittedTrace(y, keys, events)
    requires i < |Trace(y, events).calls| && Trace(y, events).calls[i].pc.Finished?
    ensures var c := Trace(y, events).calls[i]; c.pc.result.Ok? && Valid(y, events, c.Key(), c.pc.result.value)
  {
    hide KeyString, Pending, ReplayRow, At, Valid, Next, Permitted, Claims, IndexSafe, Orderly;
    TraceInv(y, keys, events);
    var z := Trace(y, events);
    var c := z.calls[i];
    assert c in z.calls;
    assert KeyInv(z, c.Key());
    assert CallInv(z.store.mode, At(z.store, c.Key()), c.pc);
    CanonValid(y, keys, events, c.Key());
  }

  // ----- every call returns -----

  // The most commands a call can still take.
  function Left(pc: Pc): nat {
    match pc
    case Start => 5
    case ReadMissed => 4
    case Missed => 3
    case Lost => 2
    case Pushing(_) | LostMissed => 1
    case Finished(_) => 0
  }

  lemma Nearer(s: State, c: Call)
    ensures Left(Advance(s, c).1) < Left(c.pc) || (c.pc.Finished? && Advance(s, c).1 == c.pc)
  {
    hide KeyString, Violates;
  }

  // How often a call is given a command.
  function Turns(events: seq<Event>, i: nat): nat {
    if events == [] then 0 else Turns(events[..|events| - 1], i) + if events[|events| - 1] == CallStep(i) then 1 else 0
  }

  // Whatever else happens, a call given five commands has returned.
  lemma {:induction false} FiveCommands(y: System, events: seq<Event>, i: nat)
    requires i < |y.calls|
    ensures i < |Trace(y, events).calls| && (Left(Trace(y, events).calls[i].pc) + Turns(events, i) <= Left(y.calls[i].pc)
                                             || Trace(y, events).calls[i].pc.Finished?)
    ensures Turns(events, i) >= 5 ==> Trace(y, events).calls[i].pc.Finished?
    decreases |events|
  {
    hide KeyString, Advance, IndexedDrain;
    if events != [] {
      var init, e := events[..|events| - 1], events[|events| - 1];
      Init(events);
      FiveCommands(y, init, i);
      TraceSnoc(y, init, e);
      Nearer(Trace(y, init).store, Trace(y, init).calls[i]);
    }
  }

  // ----- what the events do -----

  lemma EventsAct(y: System, row: Row, shard: nat, k: PartitionKey, mode: KvState)
    ensures Next(y, Spawn(row)) == y.(calls := y.calls + [Call(row, Start)])
    ensures Next(y, Replays(shard)).store == Step(y.store, DrainShard(shard)).0
    ensures Next(y, Expires(k)).store == Step(y.store, ExpireKey(k)).0
    ensures Next(y, Switch(mode)).store.mode == mode
  {
    hide KeyString, IndexedStatement;
  }
}

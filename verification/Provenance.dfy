/** What the `updated_by` column of a Postgres row says about its last change. */
module Provenance {
  import opened Wrappers
  import opened Keys
  import opened Rows
  import opened Replay
  import opened KvStore
  import opened Refinement
  import opened Runs

  datatype Origin = Replayed | Direct

  type Origins = map<PartitionKey, Origin>

  // The origin of the last step that changed each row of the table.
  function Touch(origins: Origins, before: Table, after: Table, origin: Origin): Origins {
    map k | k in after ::
      if k in before && before[k] == after[k] && k in origins then origins[k] else origin
  }

  ghost function TrackedRun(s: State, origins: Origins, actions: seq<Action>): (State, Origins)
    decreases actions
  {
    if actions == [] then (s, origins)
    else
      var s' := Step(s, actions[0]).0;
      var origin := if actions[0].DrainShard? then Replayed else Direct;
      TrackedRun(s', Touch(origins, s.pg, s'.pg, origin), actions[1..])
  }

  function MarkOf(origin: Origin): StorageScheme {
    match origin
    case Replayed => RedisKv
    case Direct => PostgresOnly
  }

  ghost predicate Marked(s: State, origins: Origins) {
    forall k :: k in s.pg ==> k in origins && s.pg[k].updatedBy == Some(MarkOf(origins[k]))
  }

  lemma StepOrderly(s: State, a: Action)
    requires Orderly(s) && (a.DoUpdate? ==> a.key.Vault?)
    ensures Orderly(Step(s, a).0)
  {
    hide KeyString, Pending, ReplayRow;
    match a {
      case DoInsert(row) => InsertOrderly(s, row);
      case DoUpdate(k, u) => UpdateOrderly(s, k, u);
      case DoDelete(k) => DeleteOrderly(s, k);
      case DrainShard(i) => DrainOrderly(s, i);
      case _ =>
    }
  }

  lemma StatementMarks(pg: Table, q: Query, k: PartitionKey)
    requires KvQuery(q) && (k in pg ==> KeyOf(pg[k]) == k)
    requires k in Statement(pg, q) && (k !in pg || Statement(pg, q)[k] != pg[k])
    ensures Statement(pg, q)[k].updatedBy == Some(RedisKv)
  {
  }

  // A row that a step changes carries the mark of the route that changed it.
  lemma StepMarks(s: State, a: Action, k: PartitionKey)
    requires Orderly(s) && (a.DoUpdate? ==> a.key.Vault?)
    ensures var pg := Step(s, a).0.pg;
            k in pg && (k !in s.pg || pg[k] != s.pg[k]) ==>
              pg[k].updatedBy == Some(if a.DrainShard? then RedisKv else PostgresOnly)
  {
    hide KeyString, Pending, ReplayRow;
    var pg := Step(s, a).0.pg;
    if a.DrainShard? && k in pg && (k !in s.pg || pg[k] != s.pg[k]) {
      var qs := Stream(s.streams, a.shard);
      assert qs != [] && qs[0] in qs;
      StatementMarks(s.pg, qs[0], k);
    }
  }

  lemma {:induction false} RunMarked(s: State, origins: Origins, actions: seq<Action>)
    requires Orderly(s) && Marked(s, origins)
    requires forall a :: a in actions && a.DoUpdate? ==> a.key.Vault?
    ensures var (s', origins') := TrackedRun(s, origins, actions); Marked(s', origins')
    decreases actions
  {
    hide KeyString, Pending, ReplayRow;
    if actions != [] {
      var a := actions[0];
      assert a in actions;
      var s' := Step(s, a).0;
      StepOrderly(s, a);
      var origins' := Touch(origins, s.pg, s'.pg, if a.DrainShard? then Replayed else Direct);
      forall k | k in s'.pg
        ensures k in origins' && s'.pg[k].updatedBy == Some(MarkOf(origins'[k]))
      {
        StepMarks(s, a, k);
      }
      RunMarked(s', origins', actions[1..]);
    }
  }

  // Over every run, guarded or not: RedisKv marks exactly the rows last changed by replay,
  // PostgresOnly exactly those last changed by a direct statement.
  lemma MarksTellOrigin(s: State, origins: Origins, actions: seq<Action>, k: PartitionKey)
    requires Orderly(s) && Marked(s, origins)
    requires forall a :: a in actions && a.DoUpdate? ==> a.key.Vault?
    ensures var (s', origins') := TrackedRun(s, origins, actions);
            k in s'.pg ==>
              && k in origins'
              && (s'.pg[k].updatedBy == Some(RedisKv) <==> origins'[k] == Replayed)
              && (s'.pg[k].updatedBy == Some(PostgresOnly) <==> origins'[k] == Direct)
  {
    RunMarked(s, origins, actions);
  }
}

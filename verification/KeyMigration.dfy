/** Moving merchant keys to the external key manager, a limited number per call. */
module KeyMigration {
  import opened Wrappers
  import opened Hex
  import opened Arithmetic

  type Bytes = seq<byte>

  datatype Tables = Tables(merchants: map<string, Bytes>, entities: map<string, string>, manager: map<string, Bytes>)
  {
    // The merchants that are not among the given entities.
    function Without(seen: set<string>): set<string> { merchants.Keys - seen }

    // Those still without an entity row.
    function Remaining(): set<string> { Without(entities.Keys) }
  }

  function Min(a: nat, b: nat): nat {
    if a < b then a else b
  }

  // Nothing is lost or overwritten, and every new entity row points at the merchant's own key.
  ghost predicate Extends(t: Tables, t': Tables) {
    && t'.merchants == t.merchants
    && (forall e :: e in t.entities ==> e in t'.entities && t'.entities[e] == t.entities[e])
    && (forall i :: i in t.manager ==> i in t'.manager && t'.manager[i] == t.manager[i])
    && (forall e :: e in t'.entities && e !in t.entities ==>
          e in t.merchants && t'.entities[e] in t'.manager && t'.manager[t'.entities[e]] == t.merchants[e])
  }

  // What an error-free call promises.
  ghost predicate Transfers(t: Tables, limit: nat, t': Tables, moved: nat) {
    Extends(t, t') && moved == Min(limit, |t.Remaining()|) && |t'.Remaining()| == |t.Remaining()| - moved
  }

  lemma ExtendsTrans(a: Tables, b: Tables, c: Tables)
    requires Extends(a, b) && Extends(b, c)
    ensures Extends(a, c)
  {
    forall e | e in c.entities && e !in a.entities
      ensures e in a.merchants && c.entities[e] in c.manager && c.manager[c.entities[e]] == a.merchants[e]
    {
      if e in b.entities { assert c.entities[e] == b.entities[e]; }
    }
  }

  function Move(t: Tables, m: string, id: string): Tables
    requires m in t.merchants
  {
    t.(entities := t.entities[m := id], manager := t.manager[id := t.merchants[m]])
  }

  lemma MoveExtends(t: Tables, m: string, id: string)
    requires m in t.Remaining() && id !in t.manager
    ensures Extends(t, Move(t, m, id))
  {
    var t' := Move(t, m, id);
    forall e | e in t'.entities && e !in t.entities
      ensures e in t.merchants && t'.entities[e] in t'.manager && t'.manager[t'.entities[e]] == t.merchants[e]
    {
      assert e == m;
    }
  }

  lemma MoveCounts(t: Tables, m: string, id: string)
    requires m in t.Remaining()
    ensures |Move(t, m, id).Remaining()| == |t.Remaining()| - 1
  {
    var left, left' := t.Remaining(), Move(t, m, id).Remaining();
    assert left' == left - {m};
  }

  // Generated identifiers: unused, and one for each merchant.
  ghost predicate FreshIds(t: Tables, id: string -> string) {
    (forall m, m' :: id(m) == id(m') ==> m == m') && forall m :: id(m) !in t.manager
  }

  class Storage {
    var merchants: map<string, Bytes>
    var entities: map<string, string>
    var manager: map<string, Bytes>

    function View(): Tables
      reads this
    {
      Tables(merchants, entities, manager)
    }

    constructor (merchants: map<string, Bytes>)
      ensures View() == Tables(merchants, map[], map[])
    {
      this.merchants := merchants;
      entities := map[];
      manager := map[];
    }

    // At most `limit` merchants that are not among the entities seen by the reading replica, in no given order.
    method FindAllKeysExcludingEntityKeys(limit: nat, seen: set<string>) returns (keys: seq<string>)
      ensures |keys| == Min(limit, |View().Without(seen)|)
      ensures forall i :: 0 <= i < |keys| ==> keys[i] in merchants && keys[i] !in seen
      ensures forall i, j :: 0 <= i < j < |keys| ==> keys[i] != keys[j]
    {
      keys := [];
      ghost var all := merchants.Keys - seen;
      var left := merchants.Keys - seen;
      while |keys| < limit && left != {}
        invariant left <= all && |keys| + |left| == |all| && |keys| <= limit
        invariant forall i :: 0 <= i < |keys| ==> keys[i] in all && keys[i] !in left
        invariant forall i, j :: 0 <= i < j < |keys| ==> keys[i] != keys[j]
        decreases left
      {
        var m :| m in left;
        keys := keys + [m];
        left := left - {m};
      }
    }

    // One merchant: its key goes to the manager, then its entity row is inserted. The row comes second, so a
    // refused row leaves an unused key behind.
    method MigrateKey(m: string, id: string, reachable: bool) returns (r: Result<string>)
      requires m in merchants && id !in manager
      modifies this
      ensures r == if !reachable then Err(Backend) else if m in old(entities) then Err(Duplicate) else Ok(id)
      ensures View() == if r.Ok? then Move(old(View()), m, id)
                        else if reachable then old(View()).(manager := old(manager)[id := old(merchants)[m]])
                        else old(View())
    {
      if !reachable { return Err(Backend); }
      manager := manager[id := merchants[m]];
      if m in entities { return Err(Duplicate); }
      entities := entities[m := id];
      r := Ok(id);
    }

    // The keys go one by one; the first failure ends the call, keeping what has moved.
    method SendRequestToKeyService(keys: seq<string>, id: string -> string, unreachable: set<string>)
      returns (r: Result<nat>)
      requires FreshIds(View(), id)
      requires forall i :: 0 <= i < |keys| ==> keys[i] in merchants
      requires forall i, j :: 0 <= i < j < |keys| ==> keys[i] != keys[j]
      modifies this
      ensures Extends(old(View()), View())
      ensures r.Ok? ==> r.value == |keys| && |View().Remaining()| == |old(View()).Remaining()| - |keys|
      ensures r.Ok? <==> forall i :: 0 <= i < |keys| ==> keys[i] !in unreachable && keys[i] !in old(entities)
    {
      hide Extends, Tables.Without, Tables.Remaining, FreshIds;
      ghost var t := View();
      FreshIdsAre(t, id);
      ExtendsSelf(t);
      ghost var done: set<string> := {};
      var i := 0;
      while i < |keys|
        invariant 0 <= i <= |keys| && merchants == t.merchants
        invariant Extends(t, View())
        invariant forall e :: e in entities <==> e in t.entities || e in done
        invariant forall j :: i <= j < |keys| ==> id(keys[j]) !in manager
        invariant forall j :: 0 <= j < i ==> keys[j] !in unreachable && keys[j] !in t.entities
        invariant forall j :: i <= j < |keys| ==> keys[j] !in done
        invariant |View().Remaining()| == |t.Remaining()| - i
      {
        var m := keys[i];
        MigrateEffect(t, View(), m, id(m));
        var moved := MigrateKey(m, id(m), m !in unreachable);
        if moved.Err? { return Err(moved.error); }
        done := done + {m};
        i := i + 1;
      }
      r := Ok(|keys|);
    }

    // From an up-to-date read and with the manager answering, exactly min(limit, remaining) merchants move. In
    // every case no row is overwritten and every new row points at the merchant's own key.
    method TransferKeys(limit: int, seen: set<string>, id: string -> string, unreachable: set<string>)
      returns (r: Result<nat>)
      requires FreshIds(View(), id) && seen <= entities.Keys
      modifies this
      ensures Extends(old(View()), View())
      ensures limit < 0 ==> r == Err(Backend) && View() == old(View())
      ensures limit >= 0 && seen == old(entities.Keys) && unreachable == {} ==>
                r.Ok? && Transfers(old(View()), limit, View(), r.value)
      ensures r.Ok? ==> limit >= 0 && r.value == Min(limit, |old(View()).Without(seen)|)
                        && |View().Remaining()| == |old(View()).Remaining()| - r.value
    {
      hide Extends, Min, FreshIds, Tables.Without;
      ExtendsSelf(View());
      if limit < 0 { return Err(Backend); }
      var keys := FindAllKeysExcludingEntityKeys(limit, seen);
      r := SendRequestToKeyService(keys, id, unreachable);
    }
  }

  lemma FreshIdsAre(t: Tables, id: string -> string)
    requires FreshIds(t, id)
    ensures forall m :: id(m) !in t.manager
    ensures forall m, m' :: id(m) == id(m') ==> m == m'
  {
  }

  lemma ExtendsSelf(t: Tables)
    ensures Extends(t, t)
  {
  }

  lemma MigrateEffect(t: Tables, before: Tables, m: string, id: string)
    requires Extends(t, before) && m in before.merchants && id !in before.manager
    ensures m !in before.entities ==> Extends(t, Move(before, m, id))
                                      && |Move(before, m, id).Remaining()| == |before.Remaining()| - 1
    ensures Extends(t, before.(manager := before.manager[id := before.merchants[m]]))
  {
    if m !in before.entities {
      MoveExtends(before, m, id);
      MoveCounts(before, m, id);
      ExtendsTrans(t, before, Move(before, m, id));
    }
  }

  // ----- repeated calls -----

  ghost predicate Calls(history: seq<Tables>, limit: nat) {
    |history| >= 1 && forall i :: 0 <= i < |history| - 1 ==>
      Transfers(history[i], limit, history[i + 1], Min(limit, |history[i].Remaining()|))
  }

  lemma {:induction false} RemainingAfter(history: seq<Tables>, limit: nat, i: nat)
    requires Calls(history, limit) && i < |history|
    ensures var n := |history[0].Remaining()|; |history[i].Remaining()| == if i * limit < n then n - i * limit else 0
    ensures Extends(history[0], history[i])
  {
    if i > 0 {
      RemainingAfter(history, limit, i - 1);
      assert Transfers(history[i - 1], limit, history[i - 1 + 1], Min(limit, |history[i - 1].Remaining()|));
      ExtendsTrans(history[0], history[i - 1], history[i]);
      assert i * limit == (i - 1) * limit + limit;
    }
  }

  function CeilDiv(n: nat, d: nat): nat
    requires d > 0
  {
    (n + d - 1) / d
  }

  lemma CeilBound(n: nat, d: nat, i: nat)
    requires d > 0
    ensures i * d >= n <==> i >= CeilDiv(n, d)
  {
    var q, r := (n + d - 1) / d, (n + d - 1) % d;
    assert n + d - 1 == q * d + r;
    if i >= q { TimesGrows(d, q, i); }
    if i < q { TimesGrows(d, i, q - 1); }
  }

  // Error-free calls with a positive limit finish the migration, after exactly ceil(n / limit) of them; then
  // every merchant has a row, and that row points at the merchant's own key if the migration wrote it.
  lemma MigrationFinishes(history: seq<Tables>, limit: nat, i: nat)
    requires Calls(history, limit) && limit > 0 && i < |history|
    ensures history[i].Remaining() == {} <==> i >= CeilDiv(|history[0].Remaining()|, limit)
    ensures forall m :: m in history[0].Remaining() && m in history[i].entities ==>
              var id := history[i].entities[m]; id in history[i].manager && history[i].manager[id] == history[0].merchants[m]
  {
    RemainingAfter(history, limit, i);
    CeilBound(|history[0].Remaining()|, limit, i);
  }
}

/** The in-process cache in front of the fingerprint and hash tables. */
module Cache {
  import opened Wrappers
  import opened Keys
  import opened Rows
  import opened Replay
  import opened KvStore
  import opened Refinement
  import opened Indexes
  import opened Runs
  import opened KvResource

  datatype Node = Node(store: State, cache: map<PartitionKey, Row>)

  // `Elsewhere` is whatever other nodes, the drainer and the operators do to the store.
  datatype CacheAction =
    | CachedFind(key: PartitionKey)
    | CachedInsert(row: Row)
    | Evict(key: PartitionKey)
    | Elsewhere(action: Action)

  predicate Cacheable(k: PartitionKey) {
    k.Fingerprint? || k.HashTable?
  }

  // A miss is answered by the store, and remembered only when a row came back.
  function FindCached(n: Node, k: PartitionKey): (Node, Result<Row>) {
    if k in n.cache then (n, Ok(n.cache[k])) else
    var r := FindById(n.store, k);
    (if r.Ok? then n.(cache := n.cache[k := r.value]) else n, r)
  }

  function InsertCached(n: Node, new_: Row): (Node, Result<Row>) {
    var (s, r) := InsertDirect(n.store, new_);
    (n.(store := s, cache := if r.Ok? then n.cache[KeyOf(new_) := r.value] else n.cache), r)
  }

  ghost function CacheStep(n: Node, a: CacheAction): (Node, Reply) {
    match a
    case CachedFind(k) =>
      var (n', r) := FindCached(n, k);
      (n', RowReply(r))
    case CachedInsert(row) =>
      var (n', r) := InsertCached(n, row);
      (n', RowReply(r))
    case Evict(k) => (n.(cache := n.cache - {k}), Done)
    case Elsewhere(action) => (n.(store := Step(n.store, action).0), Done)
  }

  // The same without a cache.
  ghost function PlainStoreStep(s: State, a: CacheAction): (State, Reply) {
    match a
    case CachedFind(k) => Step(s, DoFind(k))
    case CachedInsert(row) => Step(s, DoInsert(row))
    case Evict(_) => (s, Done)
    case Elsewhere(action) => (Step(s, action).0, Done)
  }

  ghost function CacheRun(n: Node, actions: seq<CacheAction>): (Node, seq<Reply>)
    decreases actions
  {
    if actions == [] then (n, []) else
    var (n1, reply) := CacheStep(n, actions[0]);
    var (n2, replies) := CacheRun(n1, actions[1..]);
    (n2, [reply] + replies)
  }

  ghost function PlainStoreRun(s: State, actions: seq<CacheAction>): (State, seq<Reply>)
    decreases actions
  {
    if actions == [] then (s, []) else
    var (s1, reply) := PlainStoreStep(s, actions[0]);
    var (s2, replies) := PlainStoreRun(s1, actions[1..]);
    (s2, [reply] + replies)
  }

  // Nothing updates or deletes a row of the cached tables.
  predicate LeavesCached(a: Action) {
    match a
    case DoDelete(k) => !Cacheable(k)
    case _ => true
  }

  ghost predicate CacheAllowed(s: State, keys: iset<PartitionKey>, a: CacheAction) {
    match a
    case CachedFind(k) => Cacheable(k) && k in keys
    case CachedInsert(row) => Cacheable(KeyOf(row)) && Allowed(s, keys, DoInsert(row))
    case Evict(_) => true
    case Elsewhere(action) => Allowed(s, keys, action) && LeavesCached(action)
  }

  ghost predicate CacheAllowedRun(s: State, keys: iset<PartitionKey>, actions: seq<CacheAction>)
    decreases actions
  {
    actions == []
    || (CacheAllowed(s, keys, actions[0]) && CacheAllowedRun(PlainStoreStep(s, actions[0]).0, keys, actions[1..]))
  }

  ghost predicate InsertOnly(s: State) {
    forall i, q :: q in Stream(s.streams, i) && Cacheable(QueryKey(q)) ==> q.Insert?
  }

  ghost predicate NodeInv(n: Node, keys: iset<PartitionKey>) {
    && Ready(n.store, keys) && InsertOnly(n.store)
    && forall k :: k in n.cache ==> Cacheable(k) && k in keys && TruthOf(n.store, k) == Some(n.cache[k])
  }

  lemma NoWindow(s: State, keys: iset<PartitionKey>, k: PartitionKey)
    requires Ready(s, keys) && InsertOnly(s) && Cacheable(k) && k in keys
    ensures !DeleteWindow(At(s, k)) && FindById(s, k) == PlainFind(TruthOf(s, k))
  {
    hide KeyString, ReplayRow, Pending, Orderly, IndexSafe;
    PendingMembers(Stream(s.streams, s.shardOf(k)), k);
    var pending := At(s, k).pending;
    if pending != [] { assert pending[|pending| - 1] in pending; }
    assert Sound(s, k);
    FindRefines(s, k);
  }

  lemma StaysInsertOnly(s: State, a: Action)
    requires InsertOnly(s) && LeavesCached(a) && (a.DoUpdate? ==> a.key.Vault?)
    ensures InsertOnly(Step(s, a).0)
  {
    hide KeyString, ReplayRow, Pending, IndexedStatement;
    var s' := Step(s, a).0;
    forall i, q | q in Stream(s'.streams, i) && Cacheable(QueryKey(q)) ensures q.Insert? {
      assert q in Stream(s.streams, i) || q.Insert?;
    }
  }

  // A row of a cached table, once there, is there for good.
  lemma RowStays(s: State, keys: iset<PartitionKey>, a: Action, k: PartitionKey)
    requires Ready(s, keys) && Allowed(s, keys, a) && LeavesCached(a) && Cacheable(k) && k in keys
    requires TruthOf(s, k).Some?
    ensures TruthOf(Step(s, a).0, k) == TruthOf(s, k)
  {
    hide KeyString, ReplayRow, Pending, Orderly, Sound, Step, IndexSafe;
    StepTruth(s, keys, a, k);
  }

  lemma CacheStepTransparent(n: Node, keys: iset<PartitionKey>, a: CacheAction)
    requires NodeInv(n, keys) && CacheAllowed(n.store, keys, a)
    ensures var (n', reply) := CacheStep(n, a); var (s', plain) := PlainStoreStep(n.store, a);
            NodeInv(n', keys) && n'.store == s' && reply == plain
  {
    hide KeyString, ReplayRow, Pending, Ready, InsertGuard, InsertDirect, FindById, At, Unclaimed, Refused;
    var n' := CacheStep(n, a).0;
    var action := match a { case CachedFind(k) => DoFind(k) case CachedInsert(row) => DoInsert(row)
                            case Evict(_) => SetMode(n.store.mode) case Elsewhere(action) => action };
    if a.CachedFind? { NoWindow(n.store, keys, a.key); }
    if a.CachedInsert? { StepTruth(n.store, keys, action, KeyOf(a.row)); }
    if !a.Evict? {
      StepReady(n.store, keys, action);
      StaysInsertOnly(n.store, action);
      forall k | k in n.cache ensures TruthOf(n'.store, k) == TruthOf(n.store, k) { RowStays(n.store, keys, action, k); }
    }
  }

  // The cached store answers every request as the store itself would, whatever is evicted and whoever else writes.
  lemma {:induction false} CacheTransparent(n: Node, keys: iset<PartitionKey>, actions: seq<CacheAction>)
    requires NodeInv(n, keys) && CacheAllowedRun(n.store, keys, actions)
    ensures CacheRun(n, actions).1 == PlainStoreRun(n.store, actions).1
    ensures CacheRun(n, actions).0.store == PlainStoreRun(n.store, actions).0 && NodeInv(CacheRun(n, actions).0, keys)
    decreases actions
  {
    hide NodeInv, CacheAllowed, CacheStep, PlainStoreStep;
    if actions != [] {
      CacheStepTransparent(n, keys, actions[0]);
      CacheTransparent(CacheStep(n, actions[0]).0, keys, actions[1..]);
    }
  }

  // Absence is never remembered: a miss leaves the cache as it was, and a row another node adds is found at once.
  lemma AbsenceIsNotCached(n: Node, keys: iset<PartitionKey>, row: Row)
    requires NodeInv(n, keys) && Cacheable(KeyOf(row)) && Allowed(n.store, keys, DoInsert(row))
    requires FindCached(n, KeyOf(row)).1 == Err(NotFound)
    ensures var n1 := FindCached(n, KeyOf(row)).0;
            var n2 := CacheStep(n1, Elsewhere(DoInsert(row))).0;
            n1 == n && FindCached(n2, KeyOf(row)).1 == Ok(Stamp(row, InsertScheme(n.store.mode)))
  {
    hide KeyString, ReplayRow, Pending, Ready, InsertGuard, InsertDirect, FindById, At, Unclaimed, Refused;
    var k := KeyOf(row);
    NoWindow(n.store, keys, k);
    StepTruth(n.store, keys, DoInsert(row), k);
    StepReady(n.store, keys, DoInsert(row));
    StaysInsertOnly(n.store, DoInsert(row));
    NoWindow(Step(n.store, DoInsert(row)).0, keys, k);
  }

  // A row that is found, or goes in, is answered from then on without the store; nothing else is.
  lemma Remembers(n: Node, k: PartitionKey, new_: Row, s: State)
    ensures FindCached(n, k).1.Ok? ==>
              FindCached(FindCached(n, k).0.(store := s), k).1 == FindCached(n, k).1
    ensures InsertCached(n, new_).1.Ok? ==>
              FindCached(InsertCached(n, new_).0.(store := s), KeyOf(new_)).1 == InsertCached(n, new_).1
    ensures FindCached(n, k).0.cache.Keys == n.cache.Keys + if FindCached(n, k).1.Ok? then {k} else {}
    ensures InsertCached(n, new_).0.cache.Keys == n.cache.Keys + if InsertCached(n, new_).1.Ok? then {KeyOf(new_)} else {}
  {
    hide FindById, InsertDirect;
  }

  // What is evicted is asked of the store again.
  lemma EvictionForgets(n: Node, k: PartitionKey)
    ensures var n' := CacheStep(n, Evict(k)).0;
            && FindCached(n', k).1 == FindById(n.store, k)
            && forall k' :: k' != k ==> FindCached(n', k').1 == FindCached(n, k').1
  {
    hide FindById;
  }

  class CachingStore {
    const inner: Storage
    var cache: map<PartitionKey, Row>

    function View(): Node
      reads this, inner
    {
      Node(inner.View(), cache)
    }

    constructor (inner: Storage)
      ensures this.inner == inner && View() == Node(inner.View(), map[])
    {
      this.inner := inner;
      this.cache := map[];
    }

    // What the store itself would answer, from the cache or not; what is remembered stays true.
    method Find(ghost keys: iset<PartitionKey>, k: PartitionKey) returns (r: Result<Row>)
      requires NodeInv(View(), keys) && Cacheable(k) && k in keys
      modifies this
      ensures r == FindById(inner.View(), k) == PlainFind(TruthOf(inner.View(), k))
      ensures NodeInv(View(), keys)
      ensures cache == if r.Ok? then old(cache)[k := r.value] else old(cache)
    {
      hide FindById, Ready;
      NoWindow(inner.View(), keys, k);
      if k in cache {
        assert cache == cache[k := cache[k]];
        return Ok(cache[k]);
      }
      r := inner.Find(k);
      if r.Ok? { cache := cache[k := r.value]; }
    }

    // What the store itself would answer to the insert; the caller's row is remembered when it went in.
    method Insert(ghost keys: iset<PartitionKey>, new_: Row) returns (r: Result<Row>)
      requires NodeInv(View(), keys) && Cacheable(KeyOf(new_)) && Allowed(inner.View(), keys, DoInsert(new_))
      modifies this, inner
      ensures r == PlainInsert(old(TruthOf(inner.View(), KeyOf(new_))), Stamp(new_, InsertScheme(old(inner.mode)))).1
      ensures r.Ok? ==> TruthOf(inner.View(), KeyOf(new_)) == Some(r.value)
      ensures NodeInv(View(), keys)
      ensures cache == if r.Ok? then old(cache)[KeyOf(new_) := r.value] else old(cache)
    {
      hide InsertDirect, Ready, At, InsertGuard, Refused, Unclaimed;
      ghost var n := View();
      CacheStepTransparent(n, keys, CachedInsert(new_));
      StepTruth(inner.View(), keys, DoInsert(new_), KeyOf(new_));
      r := inner.InsertRow(new_);
      if r.Ok? { cache := cache[KeyOf(new_) := r.value]; }
      assert View() == CacheStep(n, CachedInsert(new_)).0;
    }
  }
}

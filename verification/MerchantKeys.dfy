/** Merchant data keys: concurrent find-or-create over a primary, lagging replicas and per-node caches. */
module MerchantKeys {
  import opened Wrappers
  import opened Hex
  import opened Aes

  // The merchant table as the primary's log of inserts; a replica shows a prefix of it.
  datatype Merchant = Merchant(id: string, encKey: Bytes)

  type Log = seq<Merchant>

  // Nodes share the log; each has its own cache of opened keys.
  datatype Database = Database(log: Log, caches: map<nat, map<string, Bytes>>)

  datatype Config = Config(aead: Aead, master: Bytes)

  // The three reads of a call: before provisioning, inside it, and after losing the insert. A plain find has
  // only the first.
  datatype Attempt = First | Second | Last

  datatype Pc =
    | Looking(attempt: Attempt)
    | Querying(attempt: Attempt)
    | Remembering(key: Bytes)
    | Creating
    | Finished(result: Result<Bytes>)

  datatype Call = Call(node: nat, merchant: string, creates: bool, pc: Pc)

  // What the environment decides for one step: the replica's position, and the random bytes of an insert.
  datatype Choice = Choice(position: nat, newKey: Bytes, random: Bytes)

  function Row(log: Log, m: string): Option<Bytes> {
    if log == [] then None
    else if log[0].id == m then Some(log[0].encKey)
    else Row(log[1..], m)
  }

  function CacheOf(db: Database, node: nat): map<string, Bytes> {
    if node in db.caches then db.caches[node] else map[]
  }

  function Remember(db: Database, node: nat, m: string, key: Bytes): Database {
    db.(caches := db.caches[node := CacheOf(db, node)[m := key]])
  }

  // One command of one call.
  function Advance(cf: Config, db: Database, c: Call, ch: Choice): (Database, Pc) {
    match c.pc
    case Looking(attempt) =>
      (db, if c.merchant in CacheOf(db, c.node) then Finished(Ok(CacheOf(db, c.node)[c.merchant])) else Querying(attempt))
    case Querying(attempt) =>
      var row := Row(if ch.position <= |db.log| then db.log[..ch.position] else db.log, c.merchant);
      (db, if row.None? then AfterMiss(c, attempt) else
           match Decrypted(cf.aead, cf.master, row.value)
           case Plain(key) => Remembering(key)
           case _ => Finished(Err(Backend)))
    case Creating =>
      var wrapped := Encrypted(cf.aead, cf.master, ch.random, ch.newKey);
      if wrapped.None? then (db, Finished(Err(Backend)))
      else if Row(db.log, c.merchant).Some? then (db, Looking(Last))
      else
        var db' := db.(log := db.log + [Merchant(c.merchant, wrapped.value)]);
        (db', match Decrypted(cf.aead, cf.master, wrapped.value)
              case Plain(key) => Remembering(key)
              case _ => Finished(Err(Backend)))
    case Remembering(key) => (Remember(db, c.node, c.merchant, key), Finished(Ok(key)))
    case Finished(_) => (db, c.pc)
  }

  function AfterMiss(c: Call, attempt: Attempt): Pc {
    match attempt
    case First => if c.creates then Looking(Second) else Finished(Err(NotFound))
    case Second => Creating
    case Last => Finished(Err(NotFound))
  }

  datatype System = System(db: Database, calls: seq<Call>)

  datatype Event =
    | Spawn(node: nat, merchant: string, creates: bool)
    | CallStep(i: nat, choice: Choice)
    | Evict(node: nat, merchant: string)

  function Next(cf: Config, y: System, e: Event): System {
    match e
    case Spawn(node, m, creates) => y.(calls := y.calls + [Call(node, m, creates, Looking(First))])
    case CallStep(i, ch) =>
      if i >= |y.calls| then y else
      var (db, pc) := Advance(cf, y.db, y.calls[i], ch);
      System(db, y.calls[i := y.calls[i].(pc := pc)])
    case Evict(node, m) => y.(db := y.db.(caches := y.db.caches[node := CacheOf(y.db, node) - {m}]))
  }

  function Trace(cf: Config, y: System, events: seq<Event>): System
    decreases events
  {
    if events == [] then y else Trace(cf, Next(cf, y, events[0]), events[1..])
  }

  // Generators give 32 key bytes and 12 nonce bytes; nothing is asked of positions, caches or order.
  predicate Generated(events: seq<Event>) {
    forall e :: e in events && e.CallStep? ==> |e.choice.newKey| == KEY_LEN && |e.choice.random| == NONCE_LEN
  }

  // ----- the invariant -----

  // The key of a merchant: what its row on the primary opens to.
  function KeyOf(cf: Config, log: Log, m: string): Option<Bytes> {
    match Row(log, m)
    case None => None
    case Some(wrapped) =>
      match Decrypted(cf.aead, cf.master, wrapped)
      case Plain(key) => Some(key)
      case _ => None
  }

  ghost predicate PcInv(cf: Config, log: Log, m: string, pc: Pc) {
    match pc
    case Looking(Last) | Querying(Last) => Row(log, m).Some?
    case Remembering(key) => KeyOf(cf, log, m) == Some(key) && |key| == KEY_LEN
    case Finished(Ok(key)) => KeyOf(cf, log, m) == Some(key) && |key| == KEY_LEN
    case _ => true
  }

  ghost predicate LogInv(cf: Config, log: Log) {
    && (forall m :: Row(log, m).Some? ==> KeyOf(cf, log, m).Some? && |KeyOf(cf, log, m).value| == KEY_LEN)
    && (forall i, j :: 0 <= i < j < |log| ==> log[i].id != log[j].id)
  }

  ghost predicate Inv(cf: Config, y: System) {
    && LogInv(cf, y.db.log)
    && CachesInv(cf, y.db)
    && (forall c :: c in y.calls ==> PcInv(cf, y.db.log, c.merchant, c.pc))
  }

  lemma {:induction false} RowAppend(log: Log, row: Merchant, m: string)
    ensures Row(log + [row], m) == if Row(log, m).Some? then Row(log, m) else if row.id == m then Some(row.encKey) else None
  {
    if log != [] {
      RowAppend(log[1..], row, m);
      assert (log + [row])[1..] == log[1..] + [row];
    } else {
      assert (log + [row])[1..] == [];
    }
  }

  lemma {:induction false} RowMember(log: Log, m: string)
    ensures Row(log, m).Some? <==> exists i :: 0 <= i < |log| && log[i].id == m
  {
    if log != [] {
      RowMember(log[1..], m);
      if i :| 0 <= i < |log| && log[i].id == m {
        if i > 0 { assert log[1..][i - 1].id == m; }
      }
    }
  }

  // A prefix never shows another row than the primary's.
  lemma {:induction false} RowInPrefix(log: Log, p: nat, m: string)
    requires p <= |log| && Row(log[..p], m).Some?
    ensures Row(log, m) == Row(log[..p], m)
  {
    assert log[..p][1..] == log[1..][..p - 1];
    if log[0].id != m { RowInPrefix(log[1..], p - 1, m); }
  }

  lemma CreateKeepsLog(cf: Config, log: Log, row: Merchant, random: Bytes, key: Bytes)
    requires Opens(cf.aead) && |random| == NONCE_LEN && |key| == KEY_LEN
    requires LogInv(cf, log) && Row(log, row.id).None? && Some(row.encKey) == Encrypted(cf.aead, cf.master, random, key)
    ensures LogInv(cf, log + [row]) && KeyOf(cf, log + [row], row.id) == Some(key)
    ensures Decrypted(cf.aead, cf.master, row.encKey) == Plain(key)
    ensures forall m :: Row(log, m).Some? ==> Row(log + [row], m) == Row(log, m)
  {
    hide Decrypted, Encrypted, Opens;
    DecryptEncrypt(cf.aead, cf.master, random, key);
    RowMember(log, row.id);
    forall m
      ensures Row(log + [row], m)
           == if Row(log, m).Some? then Row(log, m) else if row.id == m then Some(row.encKey) else None
    {
      RowAppend(log, row, m);
    }
  }

  ghost predicate CachesInv(cf: Config, db: Database) {
    forall node, m :: m in CacheOf(db, node) ==>
      KeyOf(cf, db.log, m) == Some(CacheOf(db, node)[m]) && |CacheOf(db, node)[m]| == KEY_LEN
  }

  lemma CachesKept(cf: Config, db: Database, db': Database)
    requires CachesInv(cf, db)
    requires forall node, m :: m in CacheOf(db', node) ==>
               (m in CacheOf(db, node) && CacheOf(db', node)[m] == CacheOf(db, node)[m])
               || (KeyOf(cf, db.log, m) == Some(CacheOf(db', node)[m]) && |CacheOf(db', node)[m]| == KEY_LEN)
    requires forall m :: Row(db.log, m).Some? ==> Row(db'.log, m) == Row(db.log, m)
    ensures CachesInv(cf, db')
  {
    hide Decrypted, Row;
    forall node, m | m in CacheOf(db', node)
      ensures KeyOf(cf, db'.log, m) == Some(CacheOf(db', node)[m]) && |CacheOf(db', node)[m]| == KEY_LEN
    {
      assert KeyOf(cf, db.log, m) == Some(CacheOf(db', node)[m]) && |CacheOf(db', node)[m]| == KEY_LEN;
    }
  }

  lemma AdvanceInv(cf: Config, db: Database, c: Call, ch: Choice)
    requires Opens(cf.aead) && |ch.newKey| == KEY_LEN && |ch.random| == NONCE_LEN
    requires LogInv(cf, db.log) && CachesInv(cf, db) && PcInv(cf, db.log, c.merchant, c.pc)
    ensures var (db', pc) := Advance(cf, db, c, ch);
            && LogInv(cf, db'.log) && CachesInv(cf, db') && PcInv(cf, db'.log, c.merchant, pc)
            && forall m :: Row(db.log, m).Some? ==> Row(db'.log, m) == Row(db.log, m)
  {
    hide Decrypted, Encrypted, Opens, Row;
    if c.pc.Querying? && ch.position <= |db.log| && Row(db.log[..ch.position], c.merchant).Some? {
      RowInPrefix(db.log, ch.position, c.merchant);
    }
    if c.pc.Creating? && Row(db.log, c.merchant).None? {
      var wrapped := Encrypted(cf.aead, cf.master, ch.random, ch.newKey);
      if wrapped.Some? {
        CreateKeepsLog(cf, db.log, Merchant(c.merchant, wrapped.value), ch.random, ch.newKey);
      }
    }
    CachesKept(cf, db, Advance(cf, db, c, ch).0);
  }

  lemma NextInv(cf: Config, y: System, e: Event)
    requires Opens(cf.aead) && Generated([e]) && Inv(cf, y)
    ensures Inv(cf, Next(cf, y, e))
    ensures forall m :: KeyOf(cf, y.db.log, m).Some? ==> KeyOf(cf, Next(cf, y, e).db.log, m) == KeyOf(cf, y.db.log, m)
  {
    hide Decrypted, Encrypted, Opens, Row, Advance, LogInv;
    var y' := Next(cf, y, e);
    if e.CallStep? && e.i < |y.calls| {
      assert e in [e];
      AdvanceInv(cf, y.db, y.calls[e.i], e.choice);
    }
    if e.Evict? { CachesKept(cf, y.db, y'.db); }
    forall c | c in y'.calls ensures PcInv(cf, y'.db.log, c.merchant, c.pc) {
      assert c in y.calls || (e.Spawn? && c.pc == Looking(First)) || (e.CallStep? && c == y'.calls[e.i]);
    }
  }

  lemma {:induction false} TraceInv(cf: Config, y: System, events: seq<Event>)
    requires Opens(cf.aead) && Generated(events) && Inv(cf, y)
    ensures Inv(cf, Trace(cf, y, events))
    ensures forall m :: KeyOf(cf, y.db.log, m).Some? ==> KeyOf(cf, Trace(cf, y, events).db.log, m) == KeyOf(cf, y.db.log, m)
    decreases events
  {
    hide Inv, Next, KeyOf;
    if events != [] {
      assert Generated([events[0]]) by { assert events[0] in events; }
      NextInv(cf, y, events[0]);
      TraceInv(cf, Next(cf, y, events[0]), events[1..]);
    }
  }

  const EMPTY_SYSTEM := System(Database([], map[]), [])

  // ----- what every interleaving guarantees -----

  // All calls that succeed for a merchant hold one key, now and at any later time, and it is the key of the
  // merchant's one row; so whatever one of them encrypts, any other decrypts.
  lemma KeyAgreement(cf: Config, earlier: seq<Event>, later: seq<Event>, c: Call, d: Call, random: Bytes, m: Bytes)
    requires Opens(cf.aead) && Generated(earlier) && Generated(later) && |random| == NONCE_LEN
    requires c in Trace(cf, EMPTY_SYSTEM, earlier).calls
    requires d in Trace(cf, Trace(cf, EMPTY_SYSTEM, earlier), later).calls
    requires c.merchant == d.merchant && c.pc.Finished? && d.pc.Finished? && c.pc.result.Ok? && d.pc.result.Ok?
    ensures c.pc.result == d.pc.result
    ensures Encrypted(cf.aead, c.pc.result.value, random, m).Some?
    ensures Decrypted(cf.aead, d.pc.result.value, Encrypted(cf.aead, c.pc.result.value, random, m).value) == Plain(m)
    ensures KeyOf(cf, Trace(cf, Trace(cf, EMPTY_SYSTEM, earlier), later).db.log, c.merchant) == Some(c.pc.result.value)
  {
    hide Decrypted, Encrypted, Opens, KeyOf, Trace;
    var y := Trace(cf, EMPTY_SYSTEM, earlier);
    assert Inv(cf, EMPTY_SYSTEM) by { EmptyInv(cf); }
    TraceInv(cf, EMPTY_SYSTEM, earlier);
    TraceInv(cf, y, later);
    assert PcInv(cf, y.db.log, c.merchant, c.pc);
    DecryptEncrypt(cf.aead, c.pc.result.value, random, m);
  }

  lemma EmptyInv(cf: Config)
    ensures Inv(cf, EMPTY_SYSTEM)
  {
  }

  // A creating call is told "not found" exactly when it has lost the insert and re-reads a replica that does not
  // show the winner's row; the replica then lags behind the primary.
  lemma MissMeansLag(cf: Config, events: seq<Event>, i: nat, ch: Choice)
    requires Opens(cf.aead) && Generated(events)
    requires var y := Trace(cf, EMPTY_SYSTEM, events); i < |y.calls| && y.calls[i].creates && !y.calls[i].pc.Finished?
    ensures var y := Trace(cf, EMPTY_SYSTEM, events);
            var c := y.calls[i];
            && (Advance(cf, y.db, c, ch).1 == Finished(Err(NotFound)) <==>
                c.pc == Querying(Last) && ch.position <= |y.db.log| && Row(y.db.log[..ch.position], c.merchant).None?)
            && (c.pc == Querying(Last) ==> Row(y.db.log, c.merchant).Some?)
  {
    hide Decrypted, Encrypted, Opens, Row, Trace;
    EmptyInv(cf);
    TraceInv(cf, EMPTY_SYSTEM, events);
    var y := Trace(cf, EMPTY_SYSTEM, events);
    assert PcInv(cf, y.db.log, y.calls[i].merchant, y.calls[i].pc);
    assert y.db.log[..|y.db.log|] == y.db.log;
  }

  lemma {:induction false} TraceConcat(cf: Config, y: System, a: seq<Event>, b: seq<Event>)
    ensures Trace(cf, y, a + b) == Trace(cf, Trace(cf, y, a), b)
    decreases a
  {
    hide Next;
    if a == [] {
      assert a + b == b;
    } else {
      assert (a + b)[0] == a[0] && (a + b)[1..] == a[1..] + b;
      TraceConcat(cf, Next(cf, y, a[0]), a[1..], b);
    }
  }

  lemma TraceCons(cf: Config, y: System, e: Event, rest: seq<Event>)
    ensures Trace(cf, y, [e] + rest) == Trace(cf, Next(cf, y, e), rest)
  {
    assert ([e] + rest)[1..] == rest;
  }

  lemma TraceFour(cf: Config, y: System, a: Event, b: Event, c: Event, d: Event)
    ensures Trace(cf, y, [a, b, c, d]) == Next(cf, Next(cf, Next(cf, Next(cf, y, a), b), c), d)
  {
    hide Next;
    assert [a, b, c, d] == [a] + ([b] + ([c] + ([d] + [])));
    var y1 := Next(cf, y, a);
    var y2 := Next(cf, y1, b);
    var y3 := Next(cf, y2, c);
    TraceCons(cf, y, a, [b] + ([c] + ([d] + [])));
    TraceCons(cf, y1, b, [c] + ([d] + []));
    TraceCons(cf, y2, c, [d] + []);
    TraceCons(cf, y3, d, []);
  }

  lemma TraceSnoc(cf: Config, y: System, events: seq<Event>, e: Event)
    ensures Trace(cf, y, events + [e]) == Next(cf, Trace(cf, y, events), e)
  {
    TraceConcat(cf, y, events, [e]);
    TraceCons(cf, Trace(cf, y, events), e, []);
    assert [e] + [] == [e];
  }

  lemma Init(events: seq<Event>)
    requires events != []
    ensures events == events[..|events| - 1] + [events[|events| - 1]]
  {
  }

  // ----- plain finds, and where the keys come from -----

  // The n-th event gives the i-th call a turn.
  predicate TurnOf(events: seq<Event>, n: nat, i: nat) {
    n < |events| && events[n].CallStep? && events[n].i == i
  }

  // The call as it stands before the n-th event.
  function Before(cf: Config, events: seq<Event>, n: nat): System
    requires n <= |events|
  {
    Trace(cf, EMPTY_SYSTEM, events[..n])
  }

  // At its turn the node's cache does not show the merchant.
  ghost predicate CacheMissed(cf: Config, events: seq<Event>, n: nat, i: nat) {
    && TurnOf(events, n, i)
    && var y := Before(cf, events, n);
       i < |y.calls| && y.calls[i].pc == Looking(First) && y.calls[i].merchant !in CacheOf(y.db, y.calls[i].node)
  }

  // At its turn the replica it reads does not show the merchant.
  ghost predicate ReplicaMissed(cf: Config, events: seq<Event>, n: nat, i: nat) {
    && TurnOf(events, n, i)
    && var y := Before(cf, events, n);
       && i < |y.calls| && y.calls[i].pc == Querying(First)
       && var p := events[n].choice.position;
          Row(if p <= |y.db.log| then y.db.log[..p] else y.db.log, y.calls[i].merchant).None?
  }

  ghost predicate MissedTwice(cf: Config, events: seq<Event>, i: nat) {
    exists n: nat, n': nat :: n < n' && CacheMissed(cf, events, n, i) && ReplicaMissed(cf, events, n', i)
  }

  // One step of a plain find: it adds no row, and takes no part in creating.
  lemma FindStep(cf: Config, db: Database, c: Call, ch: Choice)
    requires !c.creates && (c.pc in {Looking(First), Querying(First)} || c.pc.Remembering? || c.pc.Finished?)
    ensures var (db', pc) := Advance(cf, db, c, ch);
            && db'.log == db.log
            && (pc in {Looking(First), Querying(First)} || pc.Remembering? || pc.Finished?)
            && (pc == Querying(First) <==> c.pc == Looking(First) && c.merchant !in CacheOf(db, c.node))
            && (pc == Finished(Err(NotFound)) <==>
                c.pc == Finished(Err(NotFound))
                || (c.pc == Querying(First)
                    && Row(if ch.position <= |db.log| then db.log[..ch.position] else db.log, c.merchant).None?))
  {
    hide Decrypted, Row;
  }

  lemma KeepsMisses(cf: Config, events: seq<Event>, e: Event, n: nat, i: nat)
    ensures CacheMissed(cf, events, n, i) ==> CacheMissed(cf, events + [e], n, i)
    ensures ReplicaMissed(cf, events, n, i) ==> ReplicaMissed(cf, events + [e], n, i)
    ensures n < |events| && CacheMissed(cf, events + [e], n, i) ==> CacheMissed(cf, events, n, i)
    ensures n < |events| && ReplicaMissed(cf, events + [e], n, i) ==> ReplicaMissed(cf, events, n, i)
  {
    hide Trace, Row;
    if n < |events| { assert (events + [e])[..n] == events[..n]; }
  }

  // A call that only looks for a key never comes to creating one, and ends in "not found" exactly when first its
  // node's cache and then the replica it read did not show the merchant.
  lemma {:induction false} PlainFind(cf: Config, events: seq<Event>, i: nat)
    requires i < |Trace(cf, EMPTY_SYSTEM, events).calls| && !Trace(cf, EMPTY_SYSTEM, events).calls[i].creates
    ensures var pc := Trace(cf, EMPTY_SYSTEM, events).calls[i].pc;
            && (pc in {Looking(First), Querying(First)} || pc.Remembering? || pc.Finished?)
            && (pc == Querying(First) ==> exists n: nat :: CacheMissed(cf, events, n, i))
            && (pc == Finished(Err(NotFound)) <==> MissedTwice(cf, events, i))
    decreases |events|
  {
    hide Trace, Row, Advance, CacheMissed, ReplicaMissed;
    assert Trace(cf, EMPTY_SYSTEM, []) == EMPTY_SYSTEM by { TraceNothing(cf, EMPTY_SYSTEM); }
    if events != [] {
      var init, e := events[..|events| - 1], events[|events| - 1];
      Init(events);
      TraceSnoc(cf, EMPTY_SYSTEM, init, e);
      var y := Trace(cf, EMPTY_SYSTEM, init);
      if i < |y.calls| {
        PlainFind(cf, init, i);
        FindTurn(cf, init, e, i);
      } else {
        NotYet(cf, init, e, i);
      }
    }
  }

  lemma TraceNothing(cf: Config, y: System)
    ensures Trace(cf, y, []) == y
  {
  }

  // A call that has just begun has missed nothing.
  lemma NotYet(cf: Config, init: seq<Event>, e: Event, i: nat)
    requires i >= |Trace(cf, EMPTY_SYSTEM, init).calls|
    ensures !MissedTwice(cf, init + [e], i)
  {
    hide Trace, Row, Advance;
    forall n: nat ensures !CacheMissed(cf, init + [e], n, i) {
      if n <= |init| {
        assert (init + [e])[..n] == init[..n];
        CallsGrow(cf, init, n);
      }
    }
  }

  lemma {:induction false} CallsGrow(cf: Config, events: seq<Event>, n: nat)
    requires n <= |events|
    ensures |Trace(cf, EMPTY_SYSTEM, events[..n]).calls| <= |Trace(cf, EMPTY_SYSTEM, events).calls|
    decreases |events| - n
  {
    hide Trace, Advance;
    if n < |events| {
      CallsGrow(cf, events, n + 1);
      assert events[..n + 1] == events[..n] + [events[n]];
      TraceSnoc(cf, EMPTY_SYSTEM, events[..n], events[n]);
    } else {
      assert events[..n] == events;
    }
  }

  lemma FindTurn(cf: Config, init: seq<Event>, e: Event, i: nat)
    requires i < |Trace(cf, EMPTY_SYSTEM, init).calls| && !Trace(cf, EMPTY_SYSTEM, init).calls[i].creates
    requires var pc := Trace(cf, EMPTY_SYSTEM, init).calls[i].pc;
             && (pc in {Looking(First), Querying(First)} || pc.Remembering? || pc.Finished?)
             && (pc == Querying(First) ==> exists n: nat :: CacheMissed(cf, init, n, i))
             && (pc == Finished(Err(NotFound)) <==> MissedTwice(cf, init, i))
    ensures var pc := Next(cf, Trace(cf, EMPTY_SYSTEM, init), e).calls[i].pc;
            && (pc in {Looking(First), Querying(First)} || pc.Remembering? || pc.Finished?)
            && (pc == Querying(First) ==> exists n: nat :: CacheMissed(cf, init + [e], n, i))
            && (pc == Finished(Err(NotFound)) <==> MissedTwice(cf, init + [e], i))
  {
    hide Trace, Row, Advance, CacheMissed, ReplicaMissed, CacheOf;
    var y, events, last := Trace(cf, EMPTY_SYSTEM, init), init + [e], |init|;
    forall n: nat { KeepsMisses(cf, init, e, n, i); }
    LastMisses(cf, init, e, i);
    if e.CallStep? && e.i == i { FindStep(cf, y.db, y.calls[i], e.choice); }
    if MissedTwice(cf, init, i) {
      var n: nat, n': nat :| n < n' && CacheMissed(cf, init, n, i) && ReplicaMissed(cf, init, n', i);
      assert CacheMissed(cf, events, n, i) && ReplicaMissed(cf, events, n', i);
    }
    if y.calls[i].pc == Querying(First) {
      var n: nat :| CacheMissed(cf, init, n, i);
      assert CacheMissed(cf, events, n, i);
      MissIsEarlier(cf, init, n, i);
      if ReplicaMissed(cf, events, last, i) { assert n < last && MissedTwice(cf, events, i); }
    }
    if MissedTwice(cf, events, i) {
      var n: nat, n': nat :| n < n' && CacheMissed(cf, events, n, i) && ReplicaMissed(cf, events, n', i);
      MissIsEarlier(cf, events, n, i);
      MissIsEarlier(cf, events, n', i);
      if n' < last { assert CacheMissed(cf, init, n, i) && ReplicaMissed(cf, init, n', i); }
    }
  }

  lemma MissIsEarlier(cf: Config, events: seq<Event>, n: nat, i: nat)
    ensures CacheMissed(cf, events, n, i) || ReplicaMissed(cf, events, n, i) ==> n < |events|
  {
    hide Trace, Row;
  }

  // What the misses of the last event are.
  lemma LastMisses(cf: Config, init: seq<Event>, e: Event, i: nat)
    requires i < |Trace(cf, EMPTY_SYSTEM, init).calls|
    ensures var y := Trace(cf, EMPTY_SYSTEM, init);
            var c := y.calls[i];
            && (CacheMissed(cf, init + [e], |init|, i) <==>
                e.CallStep? && e.i == i && c.pc == Looking(First) && c.merchant !in CacheOf(y.db, c.node))
            && (ReplicaMissed(cf, init + [e], |init|, i) <==>
                e.CallStep? && e.i == i && c.pc == Querying(First)
                && Row(if e.choice.position <= |y.db.log| then y.db.log[..e.choice.position] else y.db.log, c.merchant).None?)
  {
    hide Trace, Row;
    assert (init + [e])[..|init|] == init;
  }

  // And whenever it takes its turn, it adds no row.
  lemma FindAddsNothing(cf: Config, events: seq<Event>, i: nat, ch: Choice)
    requires i < |Trace(cf, EMPTY_SYSTEM, events).calls| && !Trace(cf, EMPTY_SYSTEM, events).calls[i].creates
    ensures Trace(cf, EMPTY_SYSTEM, events + [CallStep(i, ch)]).db.log == Trace(cf, EMPTY_SYSTEM, events).db.log
  {
    hide Trace, Advance;
    PlainFind(cf, events, i);
    TraceSnoc(cf, EMPTY_SYSTEM, events, CallStep(i, ch));
    var y := Trace(cf, EMPTY_SYSTEM, events);
    FindStep(cf, y.db, y.calls[i], ch);
  }

  // The n-th event is the turn of a creating call for `m`, and offers this key.
  ghost predicate Offered(cf: Config, events: seq<Event>, n: nat, m: string, key: Bytes) {
    && n < |events| && events[n].CallStep? && events[n].choice.newKey == key
    && var y := Before(cf, events, n);
       events[n].i < |y.calls| && y.calls[events[n].i].creates && y.calls[events[n].i].merchant == m
  }

  lemma OfferedLater(cf: Config, events: seq<Event>, e: Event, n: nat, m: string, key: Bytes)
    requires Offered(cf, events, n, m, key)
    ensures Offered(cf, events + [e], n, m, key)
  {
    hide Trace;
    assert (events + [e])[..n] == events[..n];
  }

  // A merchant has no key but one that was generated for a creating call of its own.
  lemma {:induction false} KeyWasGenerated(cf: Config, events: seq<Event>, m: string)
    requires Opens(cf.aead) && Generated(events) && KeyOf(cf, Trace(cf, EMPTY_SYSTEM, events).db.log, m).Some?
    ensures exists n: nat :: Offered(cf, events, n, m, KeyOf(cf, Trace(cf, EMPTY_SYSTEM, events).db.log, m).value)
    decreases |events|
  {
    hide Trace, KeyOf, Next, Offered, Opens, Inv;
    if events == [] {
      TraceNothing(cf, EMPTY_SYSTEM);
      EmptyKey(cf, m);
    } else {
      var init, e := events[..|events| - 1], events[|events| - 1];
      Init(events);
      TraceSnoc(cf, EMPTY_SYSTEM, init, e);
      var y := Trace(cf, EMPTY_SYSTEM, init);
      assert Generated(init) && Generated([e]) by { assert e in events; assert forall f :: f in init ==> f in events; }
      EmptyInv(cf);
      TraceInv(cf, EMPTY_SYSTEM, init);
      NewKey(cf, y, e, m);
      if KeyOf(cf, y.db.log, m).Some? {
        KeyWasGenerated(cf, init, m);
        var n: nat :| Offered(cf, init, n, m, KeyOf(cf, y.db.log, m).value);
        OfferedLater(cf, init, e, n, m, KeyOf(cf, y.db.log, m).value);
        NextInv(cf, y, e);
      } else {
        NowOffered(cf, init, e, m);
        if e.CallStep? && e.i < |y.calls| && !y.calls[e.i].creates { PlainFind(cf, init, e.i); }
        assert Offered(cf, events, |init|, m, e.choice.newKey);
      }
    }
  }

  lemma EmptyKey(cf: Config, m: string)
    ensures KeyOf(cf, EMPTY_SYSTEM.db.log, m).None?
  {
  }

  lemma NowOffered(cf: Config, init: seq<Event>, e: Event, m: string)
    ensures var y := Trace(cf, EMPTY_SYSTEM, init);
            e.CallStep? && e.i < |y.calls| && y.calls[e.i].creates && y.calls[e.i].merchant == m ==>
              Offered(cf, init + [e], |init|, m, e.choice.newKey)
  {
    hide Trace;
    assert (init + [e])[..|init|] == init;
  }

  // A key appears only at the turn of a call about to create it, and is the key that turn offers.
  lemma NewKey(cf: Config, y: System, e: Event, m: string)
    requires Opens(cf.aead) && Generated([e]) && Inv(cf, y)
    requires KeyOf(cf, Next(cf, y, e).db.log, m).Some?
    ensures KeyOf(cf, y.db.log, m).None? ==>
              && e.CallStep? && e.i < |y.calls| && y.calls[e.i].pc.Creating? && y.calls[e.i].merchant == m
              && KeyOf(cf, Next(cf, y, e).db.log, m) == Some(e.choice.newKey)
  {
    hide Decrypted, Encrypted, Opens, Row;
    if KeyOf(cf, y.db.log, m).None? && e.CallStep? && e.i < |y.calls| {
      assert e in [e];
      var c, ch := y.calls[e.i], e.choice;
      var wrapped := Encrypted(cf.aead, cf.master, ch.random, ch.newKey);
      if c.pc.Creating? && Row(y.db.log, c.merchant).None? && wrapped.Some? {
        var row := Merchant(c.merchant, wrapped.value);
        CreateKeepsLog(cf, y.db.log, row, ch.random, ch.newKey);
        RowAppend(y.db.log, row, m);
      }
    }
  }

  // A call remembers its key at its own node, and no other; the next look there finds it.
  lemma Remembers(cf: Config, db: Database, c: Call, ch: Choice, d: Call, attempt: Attempt)
    requires c.pc.Remembering? && d.merchant == c.merchant && d.pc == Looking(attempt)
    ensures var (db', pc) := Advance(cf, db, c, ch);
            && pc == Finished(Ok(c.pc.key)) && db'.log == db.log
            && (d.node == c.node ==> Advance(cf, db', d, ch) == (db', Finished(Ok(c.pc.key))))
            && (d.node != c.node ==> Advance(cf, db', d, ch).1 == Advance(cf, db, d, ch).1)
  {
  }

  // A merchant evicted from a node's cache is asked of the database again.
  lemma EvictionForgets(cf: Config, y: System, c: Call, attempt: Attempt, ch: Choice)
    requires c.pc == Looking(attempt)
    ensures var y' := Next(cf, y, Evict(c.node, c.merchant)); Advance(cf, y'.db, c, ch) == (y'.db, Querying(attempt))
  {
  }

  // Two misses, and the call is about to create.
  function TwoMisses(i: nat, ch: Choice): seq<Event> {
    [CallStep(i, ch), CallStep(i, ch), CallStep(i, ch), CallStep(i, ch)]
  }

  lemma CreatesNext(cf: Config, y: System, i: nat, ch: Choice)
    requires i < |y.calls| && y.calls[i].creates && y.calls[i].pc == Looking(First)
    requires y.db == Database([], map[])
    ensures Trace(cf, y, TwoMisses(i, ch)) == y.(calls := y.calls[i := y.calls[i].(pc := Creating)])
  {
    var e, c := CallStep(i, ch), y.calls[i];
    TraceFour(cf, y, e, e, e, e);
    var y1 := Next(cf, y, e);
    assert y1 == y.(calls := y.calls[i := c.(pc := Querying(First))]);
    var y2 := Next(cf, y1, e);
    assert y2 == y.(calls := y.calls[i := c.(pc := Looking(Second))]);
    var y3 := Next(cf, y2, e);
    assert y3 == y.(calls := y.calls[i := c.(pc := Querying(Second))]);
    assert Next(cf, y3, e) == y.(calls := y.calls[i := c.(pc := Creating)]);
  }

  function RacingCalls(m: string, ch: Choice): seq<Event> {
    [Spawn(0, m, true), Spawn(1, m, true)] + (TwoMisses(0, ch) + TwoMisses(1, ch))
  }

  lemma BothCreate(cf: Config, m: string, ch: Choice)
    ensures Trace(cf, EMPTY_SYSTEM, RacingCalls(m, ch))
         == System(Database([], map[]), [Call(0, m, true, Creating), Call(1, m, true, Creating)])
  {
    var spawns := [Spawn(0, m, true), Spawn(1, m, true)];
    var y := System(Database([], map[]), [Call(0, m, true, Looking(First)), Call(1, m, true, Looking(First))]);
    assert Trace(cf, EMPTY_SYSTEM, spawns) == y by {
      assert spawns == [spawns[0]] + ([spawns[1]] + []);
      TraceCons(cf, EMPTY_SYSTEM, spawns[0], [spawns[1]] + []);
      TraceCons(cf, Next(cf, EMPTY_SYSTEM, spawns[0]), spawns[1], []);
    }
    TraceConcat(cf, EMPTY_SYSTEM, spawns, TwoMisses(0, ch) + TwoMisses(1, ch));
    TraceConcat(cf, y, TwoMisses(0, ch), TwoMisses(1, ch));
    CreatesNext(cf, y, 0, ch);
    var y' := y.(calls := y.calls[0 := y.calls[0].(pc := Creating)]);
    CreatesNext(cf, y', 1, ch);
    assert y'.calls[1 := y'.calls[1].(pc := Creating)] == [Call(0, m, true, Creating), Call(1, m, true, Creating)];
  }

  // The one other failure is a master key that is none: then nothing can be created, and creating says so.
  lemma OnlyOtherFailure(cf: Config, events: seq<Event>, i: nat, ch: Choice)
    requires Opens(cf.aead) && Generated(events + [CallStep(i, ch)])
    requires var y := Trace(cf, EMPTY_SYSTEM, events); i < |y.calls| && !y.calls[i].pc.Finished?
    ensures var y := Trace(cf, EMPTY_SYSTEM, events);
            var pc := Advance(cf, y.db, y.calls[i], ch).1;
            && (pc == Finished(Err(Backend)) <==> y.calls[i].pc.Creating? && |cf.master| != KEY_LEN)
            && pc != Finished(Err(Duplicate))
  {
    hide Opens, Row, Trace;
    EmptyInv(cf);
    assert Generated(events) by {
      assert forall e :: e in events ==> e in events + [CallStep(i, ch)];
    }
    assert CallStep(i, ch) in events + [CallStep(i, ch)];
    TraceInv(cf, EMPTY_SYSTEM, events);
    var y := Trace(cf, EMPTY_SYSTEM, events);
    var c := y.calls[i];
    DecryptEncrypt(cf.aead, cf.master, ch.random, ch.newKey);
    assert KeyOf(cf, y.db.log, c.merchant).Some? <==> Row(y.db.log, c.merchant).Some?;
    if c.pc.Querying? && ch.position <= |y.db.log| && Row(y.db.log[..ch.position], c.merchant).Some? {
      RowInPrefix(y.db.log, ch.position, c.merchant);
    }
  }

  // The most commands a call can still take: every call returns.
  function Left(pc: Pc): nat {
    match pc
    case Looking(First) => 8
    case Querying(First) => 7
    case Looking(Second) => 6
    case Querying(Second) => 5
    case Creating => 4
    case Looking(Last) => 3
    case Querying(Last) => 2
    case Remembering(_) => 1
    case Finished(_) => 0
  }

  lemma Nearer(cf: Config, db: Database, c: Call, ch: Choice)
    ensures Left(Advance(cf, db, c, ch).1) < Left(c.pc) || (c.pc.Finished? && Advance(cf, db, c, ch).1 == c.pc)
  {
    hide Decrypted, Encrypted, Row;
  }

  // And it happens: two calls on two nodes find no key, the first creates it, and the second, refused, reads a
  // replica that is still empty. The merchant has a key, and the second caller is told that it has none.
  lemma LoserMisses(cf: Config, m: string, ch: Choice)
    requires Opens(cf.aead) && |cf.master| == KEY_LEN && |ch.newKey| == KEY_LEN && |ch.random| == NONCE_LEN
    requires ch.position == 0
    ensures var events := RacingCalls(m, ch) + [CallStep(0, ch), CallStep(1, ch), CallStep(1, ch), CallStep(1, ch)];
            var z := Trace(cf, EMPTY_SYSTEM, events);
            && Generated(events)
            && KeyOf(cf, z.db.log, m) == Some(ch.newKey)
            && |z.calls| == 2 && z.calls[1].creates && z.calls[1].pc == Finished(Err(NotFound))
  {
    hide Encrypted, Decrypted, Opens;
    DecryptEncrypt(cf.aead, cf.master, ch.random, ch.newKey);
    BothCreate(cf, m, ch);
    var c0, c1 := CallStep(0, ch), CallStep(1, ch);
    TraceConcat(cf, EMPTY_SYSTEM, RacingCalls(m, ch), [c0, c1, c1, c1]);
    var y := System(Database([], map[]), [Call(0, m, true, Creating), Call(1, m, true, Creating)]);
    TraceFour(cf, y, c0, c1, c1, c1);
    var row := Merchant(m, Encrypted(cf.aead, cf.master, ch.random, ch.newKey).value);
    var db := Database([row], map[]);
    var won := Call(0, m, true, Remembering(ch.newKey));
    var y1 := Next(cf, y, c0);
    assert y1 == System(db, [won, Call(1, m, true, Creating)]);
    var y2 := Next(cf, y1, c1);
    assert y2 == System(db, [won, Call(1, m, true, Looking(Last))]);
    var y3 := Next(cf, y2, c1);
    assert y3 == System(db, [won, Call(1, m, true, Querying(Last))]);
    assert db.log[..0] == [];
    assert Next(cf, y3, c1) == System(db, [won, Call(1, m, true, Finished(Err(NotFound)))]);
  }

  // One node's view of the merchant table, with its cache.
  class MerchantStore {
    const cf: Config
    var log: Log
    var cache: map<string, Bytes>

    ghost predicate Valid()
      reads this
    {
      LogInv(cf, log) && forall m :: m in cache ==> KeyOf(cf, log, m) == Some(cache[m])
    }

    constructor (cf: Config)
      ensures Valid() && this.cf == cf && log == [] && cache == map[]
    {
      this.cf := cf;
      log := [];
      cache := map[];
    }

    // Only a key is remembered, never its absence.
    method FindByMerchantId(m: string, position: nat) returns (r: Result<Bytes>)
      requires Valid() && position <= |log|
      modifies this`cache
      ensures Valid()
      ensures r.Ok? ==> KeyOf(cf, log, m) == Some(r.value) && cache == old(cache)[m := r.value]
      ensures r.Err? ==> r == Err(NotFound) && m !in old(cache) && Row(log[..position], m).None? && cache == old(cache)
    {
      hide Decrypted, Row;
      if m in cache { return Ok(cache[m]); }
      var row := Row(log[..position], m);
      if row.None? { return Err(NotFound); }
      RowInPrefix(log, position, m);
      match Decrypted(cf.aead, cf.master, row.value) {
        case Plain(key) =>
          cache := cache[m := key];
          r := Ok(key);
      }
    }

    method InsertMerchant(m: string, key: Bytes, random: Bytes) returns (r: Result<Bytes>)
      requires Valid() && Opens(cf.aead) && |key| == KEY_LEN && |random| == NONCE_LEN && |cf.master| == KEY_LEN
      modifies this
      ensures Valid()
      ensures r == if Row(old(log), m).Some? then Err(Duplicate) else Ok(key)
      ensures r.Err? ==> log == old(log) && cache == old(cache)
      ensures r.Ok? ==> KeyOf(cf, log, m) == Some(key)
      ensures forall m' :: Row(old(log), m').Some? ==> Row(log, m') == Row(old(log), m')
    {
      hide Decrypted, Encrypted, Row, Opens, LogInv;
      if Row(log, m).Some? { return Err(Duplicate); }
      DecryptEncrypt(cf.aead, cf.master, random, key);
      var row := Merchant(m, Encrypted(cf.aead, cf.master, random, key).value);
      CreateKeepsLog(cf, log, row, random, key);
      log := log + [row];
      cache := cache[m := key];
      r := Ok(key);
    }

    // The key returned is the merchant's key; a key that existed stays. The one failure is a re-read
    // served by a replica that does not show the row yet.
    method FindOrCreate(m: string, key: Bytes, random: Bytes, first: nat, last: nat) returns (r: Result<Bytes>)
      requires Valid() && Opens(cf.aead) && |key| == KEY_LEN && |random| == NONCE_LEN && |cf.master| == KEY_LEN
      requires first <= |log| && last <= |log|
      modifies this
      ensures Valid()
      ensures r.Ok? ==> KeyOf(cf, log, m) == Some(r.value)
      ensures r.Ok? && KeyOf(cf, old(log), m).None? ==> r.value == key
      ensures forall m' :: Row(old(log), m').Some? ==> Row(log, m') == Row(old(log), m')
      ensures r.Err? ==> r == Err(NotFound) && last < |log| && Row(log, m).Some? && Row(log[..last], m).None?
    {
      hide Decrypted, Encrypted, Row, Opens, LogInv;
      r := FindByMerchantId(m, first);
      if r.Ok? { return; }
      r := InsertMerchant(m, key, random);
      if r == Err(Duplicate) {
        r := FindByMerchantId(m, last);
        assert log[..|log|] == log;
      }
    }
  }
}

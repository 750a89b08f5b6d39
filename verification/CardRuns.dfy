/** The card book in every KV mode, with replay, expiry and mode changes between the requests. */
module CardRuns {
  import opened Wrappers
  import opened Hex
  import opened Keys
  import opened Rows
  import opened Replay
  import opened KvStore
  import opened Refinement
  import opened Indexes
  import opened Runs
  import opened ReverseLookups
  import opened Cache
  import opened CardDedup

  datatype CardEvent = Served(request: Request, fresh_: Fresh) | Between(action: Action)

  // ----- how the truths hold the book -----

  // The locker opens under its merchant's key, and its hash is the hash row of what is inside.
  ghost predicate CardOf(cr: Crypto, w: World, keys: iset<PartitionKey>, row: Row) {
    && row.LockerRow? && row.merchantId in w.keys
    && cr.open(w.keys[row.merchantId], row.encData).Some?
    && HashIs(w.store, keys, cr.digest(StoredText(cr.open(w.keys[row.merchantId], row.encData).value)), row.lockerHashId)
  }

  ghost predicate HashIs(s: State, keys: iset<PartitionKey>, digest: seq<byte>, hashId: string) {
    var o := TruthOf(s, HashTable(digest));
    HashTable(digest) in keys && o.Some? && o.value.HashRow? && o.value.hashId == hashId
  }

  ghost predicate CardInv(cr: Crypto, w: World, keys: iset<PartitionKey>) {
    && LockerInv(w.store, keys) && InsertOnly(w.store)
    && forall k :: k in keys && k.Locker? && TruthOf(w.store, k).Some? ==> CardOf(cr, w, keys, TruthOf(w.store, k).value)
  }

  // The slot holds this card.
  ghost predicate Card(cr: Crypto, w: World, x: Slot, e: Entry) {
    var o := TruthOf(w.store, Locker(x.merchant, x.customer, e.reference));
    && o.Some? && o.value.LockerRow? && x.merchant in w.keys
    && cr.open(w.keys[x.merchant], o.value.encData) == Some(e.data)
    && o.value.ttl == e.ttl && StoredText(e.data) == x.text
  }

  ghost predicate ShowsBook(cr: Crypto, w: World, b: Book) {
    && w.keys.Keys == b.merchants
    && forall x, e :: Card(cr, w, x, e) <==> (x in b.entries && b.entries[x] == e)
  }

  lemma InvReady(cr: Crypto, w: World, keys: iset<PartitionKey>)
    requires CardInv(cr, w, keys)
    ensures Ready(w.store, keys) && Orderly(w.store) && IndexSafe(w.store.pg, w.store.streams)
  {
  }

  // The row of a locker that is there is keyed by its own columns.
  lemma LockerColumns(cr: Crypto, w: World, keys: iset<PartitionKey>, m: string, c: string, l: string)
    requires CardInv(cr, w, keys) && TruthOf(w.store, Locker(m, c, l)).Some?
    ensures var row := TruthOf(w.store, Locker(m, c, l)).value;
            && Locker(m, c, l) in keys && CardOf(cr, w, keys, row)
            && row.merchantId == m && row.customerId == c && row.lockerId == l
  {
    hide KeyString, Pending, ReplayRow, IndexSafe, CardOf, LookupSound, LockerComplete;
    InvReady(cr, w, keys);
    TruthInUse(w.store, keys, Locker(m, c, l));
    TruthKeyed(w.store, Locker(m, c, l));
    assert CardOf(cr, w, keys, TruthOf(w.store, Locker(m, c, l)).value);
  }

  // One text has one hash row, and one hash id one text.
  lemma SameHash(cr: Crypto, w: World, keys: iset<PartitionKey>, a: string, b: string, hashId: string)
    requires Faithful(cr) && CardInv(cr, w, keys)
    requires HashIs(w.store, keys, cr.digest(a), hashId) && HashIs(w.store, keys, cr.digest(b), hashId)
    ensures a == b
  {
    hide KeyString, Pending, ReplayRow, IndexSafe, LockerInv;
    InvReady(cr, w, keys);
    TruthsUnique(w.store, HashTable(cr.digest(a)), HashTable(cr.digest(b)));
  }

  // A right search by a text's hash id finds the card of the slot, or shows the slot empty.
  lemma SearchFindsCard(cr: Crypto, w: World, keys: iset<PartitionKey>, x: Slot, hashId: string, r: Result<Row>)
    requires Faithful(cr) && CardInv(cr, w, keys) && HashIs(w.store, keys, cr.digest(x.text), hashId)
    requires RightAnswer(w.store, hashId, x.merchant, x.customer, r)
    ensures r.Ok? ==>
              && r.value.LockerRow? && x.merchant in w.keys
              && cr.open(w.keys[x.merchant], r.value.encData).Some?
              && Card(cr, w, x, Entry(r.value.lockerId, cr.open(w.keys[x.merchant], r.value.encData).value, r.value.ttl))
    ensures r.Err? ==> r == Err(NotFound) && forall e :: !Card(cr, w, x, e)
  {
    hide KeyString, Pending, ReplayRow, IndexSafe, LockerInv, TruthOf, HashIs, CardInv;
    if r.Ok? {
      LockerColumns(cr, w, keys, x.merchant, x.customer, r.value.lockerId);
      SameHash(cr, w, keys, x.text, StoredText(cr.open(w.keys[x.merchant], r.value.encData).value), hashId);
    } else {
      forall e ensures !Card(cr, w, x, e) {
        if Card(cr, w, x, e) { CardHash(cr, w, keys, x, e, hashId); }
      }
    }
  }

  // A card that is held has the hash id of its text.
  lemma CardHash(cr: Crypto, w: World, keys: iset<PartitionKey>, x: Slot, e: Entry, hashId: string)
    requires CardInv(cr, w, keys) && Card(cr, w, x, e)
    ensures TruthOf(w.store, HashTable(cr.digest(x.text))).Some?
    ensures HashIs(w.store, keys, cr.digest(x.text), hashId) ==>
              IsLocker(TruthOf(w.store, Locker(x.merchant, x.customer, e.reference)), hashId)
  {
    hide KeyString, Pending, ReplayRow, IndexSafe, LockerInv, TruthOf, CardInv;
    LockerColumns(cr, w, keys, x.merchant, x.customer, e.reference);
  }

  // ----- the steps the routes are made of -----

  // What a card event may not do, seen from every other key.
  ghost predicate SameTruths(s: State, s': State, keys: iset<PartitionKey>) {
    forall k :: k in keys ==> TruthOf(s', k) == TruthOf(s, k)
  }

  lemma SameCards(cr: Crypto, w: World, w': World, keys: iset<PartitionKey>, b: Book)
    requires CardInv(cr, w, keys) && ShowsBook(cr, w, b) && w'.keys == w.keys
    requires LockerInv(w'.store, keys) && InsertOnly(w'.store) && SameTruths(w.store, w'.store, keys)
    ensures CardInv(cr, w', keys) && ShowsBook(cr, w', b)
  {
    hide KeyString, Pending, ReplayRow, IndexSafe, LockerInv, TruthOf;
    forall x, e ensures Card(cr, w', x, e) <==> Card(cr, w, x, e) {
      var k := Locker(x.merchant, x.customer, e.reference);
      NotInUse(w.store, keys, k);
      NotInUse(w'.store, keys, k);
    }
  }

  lemma NotInUse(s: State, keys: iset<PartitionKey>, k: PartitionKey)
    requires LockerInv(s, keys) && k.Locker?
    ensures k !in keys ==> TruthOf(s, k) == None
  {
    hide KeyString, Pending, ReplayRow, IndexSafe, InUse, TruthOf;
    if TruthOf(s, k).Some? { TruthInUse(s, keys, k); }
  }

  // A merchant that gets its first key.
  lemma KeyProvided(cr: Crypto, w: World, keys: iset<PartitionKey>, m: string, key: Key)
    requires CardInv(cr, w, keys)
    ensures var w' := ProvisionKey(w, m, key);
            CardInv(cr, w', keys) && forall x, e :: Card(cr, w', x, e) <==> Card(cr, w, x, e)
  {
    hide KeyString, Pending, ReplayRow, IndexSafe, LockerInv, TruthOf;
    var w' := ProvisionKey(w, m, key);
    forall k | k in keys && k.Locker? && TruthOf(w'.store, k).Some?
      ensures CardOf(cr, w', keys, TruthOf(w'.store, k).value)
    {
      assert CardOf(cr, w, keys, TruthOf(w.store, k).value);
    }
    forall x, e ensures Card(cr, w', x, e) <==> Card(cr, w, x, e) {
      if TruthOf(w.store, Locker(x.merchant, x.customer, e.reference)).Some? {
        LockerColumns(cr, w, keys, x.merchant, x.customer, e.reference);
      }
    }
  }

  // A hash row goes in; no locker and no lookup sees it.
  lemma HashGoesIn(cr: Crypto, w: World, keys: iset<PartitionKey>, row: Row)
    requires CardInv(cr, w, keys) && row.HashRow? && Allowed(w.store, keys, DoInsert(row))
    requires TruthOf(w.store, KeyOf(row)).None?
    ensures var (s', r) := InsertDirect(w.store, row);
            var w' := w.(store := s');
            && r == Ok(Stamp(row, InsertScheme(w.store.mode)))
            && CardInv(cr, w', keys) && (forall x, e :: Card(cr, w', x, e) <==> Card(cr, w, x, e))
            && HashIs(s', keys, row.dataHash, row.hashId) && s'.mode == w.store.mode
  {
    hide KeyString, Pending, ReplayRow, IndexSafe, Unclaimed, Refused, InsertGuard, InsertDirect, At, InUse, Orderly;
    var s := w.store;
    var s' := InsertDirect(s, row).0;
    StepReady(s, keys, DoInsert(row));
    StepTruth(s, keys, DoInsert(row), KeyOf(row));
    StaysInsertOnly(s, DoInsert(row));
    InsertInUse(s, keys, row);
    InsertKeepsMode(s, row);
    forall k | k in keys && k != KeyOf(row)
      ensures TruthOf(s', k) == TruthOf(s, k) && At(s', k) == At(s, k) && (k in s'.pg <==> k in s.pg)
    {
      StepTruth(s, keys, DoInsert(row), k);
      assert Apart(KeyOf(row), k);
      InsertEffect(s, row, k);
      StoredAt(s, k);
      StoredAt(s', k);
    }
    forall id | ReverseLookup(id) in keys ensures LookupSound(s', keys, id) {
      assert LookupSound(s, keys, id);
      if TruthOf(s, ReverseLookup(id)).Some? {
        var k :| k in keys && LeadsTo(TruthOf(s, ReverseLookup(id)), k) && HasLookupId(TruthOf(s, k), id);
        NotALookup(s, keys, k);
      }
    }
    forall k | k in keys && k.Locker? ensures LockerComplete(s', keys, k) {
      assert LockerComplete(s, keys, k);
    }
    CardsStay(cr, w, w.(store := s'), keys);
  }

  lemma InsertKeepsMode(s: State, row: Row)
    ensures InsertDirect(s, row).0.mode == s.mode
  {
    hide KeyString, Violates;
  }

  lemma StoredAt(s: State, k: PartitionKey)
    ensures k in s.pg <==> At(s, k).stored.Some?
  {
    hide KeyString, Pending;
  }

  // Where lockers and the hash rows there keep their truths, so do the cards.
  lemma CardsStay(cr: Crypto, w: World, w': World, keys: iset<PartitionKey>)
    requires CardInv(cr, w, keys) && w'.keys == w.keys && LockerInv(w'.store, keys) && InsertOnly(w'.store)
    requires forall k :: k in keys && k.Locker? ==> TruthOf(w'.store, k) == TruthOf(w.store, k)
    requires forall k :: k in keys && k.HashTable? && TruthOf(w.store, k).Some? ==>
               TruthOf(w'.store, k) == TruthOf(w.store, k)
    ensures CardInv(cr, w', keys) && forall x, e :: Card(cr, w', x, e) <==> Card(cr, w, x, e)
  {
    hide KeyString, Pending, ReplayRow, IndexSafe, LockerInv, TruthOf;
    forall k | k in keys && k.Locker? && TruthOf(w'.store, k).Some?
      ensures CardOf(cr, w', keys, TruthOf(w'.store, k).value)
    {
      assert CardOf(cr, w, keys, TruthOf(w.store, k).value);
    }
    forall x, e ensures Card(cr, w', x, e) <==> Card(cr, w, x, e) {
      NotInUse(w.store, keys, Locker(x.merchant, x.customer, e.reference));
      NotInUse(w'.store, keys, Locker(x.merchant, x.customer, e.reference));
    }
  }

  lemma AddInsertOnly(s: State, row: Row)
    requires InsertOnly(s) && row.LockerRow?
    ensures InsertOnly(InsertLocker(s, row).0)
  {
    hide KeyString, LookupId, Violates, InsertOnly, InsertDirect;
    var stamped := Stamp(row, InsertScheme(s.mode));
    StaysInsertOnly(s, DoInsert(row));
    StaysInsertOnly(s, DoInsert(LookupFor(stamped)));
    var s1 := InsertDirect(s, LookupFor(stamped)).0;
    StaysInsertOnly(s1, DoInsert(row));
    InsertKeepsMode(s, LookupFor(stamped));
    assert s.mode.Enabled? ==> KvInsert(s1, stamped) == InsertDirect(s1, row) by { DirectIs(s1, row); }
    DirectIs(s, row);
  }

  lemma DirectIs(s: State, row: Row)
    ensures InsertDirect(s, row) == if s.mode.Enabled? then KvInsert(s, Stamp(row, RedisKv))
                                    else PgInsert(s, Stamp(row, PostgresOnly))
  {
    hide KeyString, Violates;
  }

  lemma RemoveInsertOnly(s: State, k: PartitionKey)
    requires InsertOnly(s) && k.Locker?
    ensures InsertOnly(DeleteLocker(s, k).0)
  {
    hide KeyString, LookupId, InsertOnly, DeleteById, FindById;
    StaysInsertOnly(s, DoDelete(k));
    var found := FindById(s, k);
    if found.Ok? && found.value.LockerRow? {
      StaysInsertOnly(DeleteById(s, k).0, DoDelete(ReverseLookup(LookupIdOf(found.value))));
    }
  }

  // A card goes in under a reference that the store accepts.
  lemma CardGoesIn(cr: Crypto, w: World, keys: iset<PartitionKey>, rq: Request, fr: Fresh, hash: Row)
    requires Faithful(cr) && CardInv(cr, w, keys) && rq.Add? && rq.merchant in w.keys && hash.HashRow?
    requires HashIs(w.store, keys, cr.digest(Text(rq.data)), hash.hashId)
    requires Accepts(cr, w, keys, rq, fr, hash.hashId)
    ensures var (w', r) := SealAndInsert(cr, w, rq, fr, hash);
            && r == Added(ReferenceFor(rq, fr), None) && CardInv(cr, w', keys) && w'.keys == w.keys
            && forall x, e :: Card(cr, w', x, e) <==> Card(cr, w, x, e) || (x == SlotOf(rq) && e == EntryFor(rq, fr))
  {
    hide KeyString, Pending, ReplayRow, IndexSafe, InUse, LockerInv, LockerAllowed, AddRefused, InsertLocker, TruthOf,
         LookupId, InsertOnly;
    var s, row := w.store, LockerFor(cr, w, rq, fr, hash.hashId);
    AddPromise(s, keys, row);
    AddInsertOnly(s, row);
    var (s', r) := InsertLocker(s, row);
    var w' := w.(store := s');
    var k0 := KeyOf(row);
    assert k0 in keys && TruthOf(s, k0) == None by { FreshReference(s, keys, row); }
    forall k | k in keys && !k.ReverseLookup?
      ensures TruthOf(s', k) == if k == k0 then Some(Stamp(row, InsertScheme(s.mode))) else TruthOf(s, k)
    {
      AddEffect(s, keys, row, k);
    }
    assert cr.open(w.keys[rq.merchant], row.encData) == Some(Store(rq.data));
    assert StoredText(Store(rq.data)) == Text(rq.data);
    forall k | k in keys && k.Locker? && TruthOf(s', k).Some?
      ensures CardOf(cr, w', keys, TruthOf(s', k).value)
    {
      if k != k0 { assert CardOf(cr, w, keys, TruthOf(s, k).value); }
    }
    forall x, e
      ensures Card(cr, w', x, e) <==> Card(cr, w, x, e) || (x == SlotOf(rq) && e == EntryFor(rq, fr))
    {
      var k := Locker(x.merchant, x.customer, e.reference);
      NotInUse(s, keys, k);
      NotInUse(s', keys, k);
    }
  }

  // The store takes the locker that the add route would insert.
  ghost predicate Accepts(cr: Crypto, w: World, keys: iset<PartitionKey>, rq: Request, fr: Fresh, hashId: string)
    requires rq.Add? && rq.merchant in w.keys
  {
    var row := LockerFor(cr, w, rq, fr, hashId);
    LockerAllowed(w.store, keys, LockerAction.AddLocker(row)) && !AddRefused(w.store, row)
  }

  lemma FreshReference(s: State, keys: iset<PartitionKey>, row: Row)
    requires row.LockerRow? && LockerAllowed(s, keys, LockerAction.AddLocker(row)) && !AddRefused(s, row)
    ensures KeyOf(row) in keys && TruthOf(s, KeyOf(row)) == None
  {
    hide KeyString, Unclaimed, InsertGuard, AddRefused;
    FreshTruth(s, KeyOf(row));
  }

  // A card is taken out.
  lemma CardGoesOut(cr: Crypto, w: World, keys: iset<PartitionKey>, k0: PartitionKey)
    requires CardInv(cr, w, keys) && LockerAllowed(w.store, keys, LockerAction.RemoveLocker(k0)) && k0.Locker?
    ensures var w' := w.(store := DeleteLocker(w.store, k0).0);
            && CardInv(cr, w', keys)
            && forall x, e :: Card(cr, w', x, e) <==>
                 Card(cr, w, x, e) && !Named(x, e, k0.merchantId, k0.customerId, k0.lockerId)
  {
    hide KeyString, Pending, ReplayRow, IndexSafe, InUse, LockerInv, LockerAllowed, DeleteLocker, TruthOf, LookupId,
         InsertOnly;
    var s, s' := w.store, DeleteLocker(w.store, k0).0;
    var w' := w.(store := s');
    RemovePromise(s, keys, k0);
    RemoveInsertOnly(s, k0);
    forall k | k in keys && !k.ReverseLookup?
      ensures TruthOf(s', k) == if k == k0 then None else TruthOf(s, k)
    {
      RemoveEffect(s, keys, k0, k);
    }
    forall k | k in keys && k.Locker? && TruthOf(s', k).Some?
      ensures CardOf(cr, w', keys, TruthOf(s', k).value)
    {
      assert CardOf(cr, w, keys, TruthOf(s, k).value);
    }
    forall x, e
      ensures Card(cr, w', x, e) <==> Card(cr, w, x, e) && !Named(x, e, k0.merchantId, k0.customerId, k0.lockerId)
    {
      var k := Locker(x.merchant, x.customer, e.reference);
      NotInUse(s, keys, k);
      NotInUse(s', keys, k);
    }
  }

  // ----- one event -----

  // Names in use, no undrained delete in the way of a search, no misleading lookup, and for a card that goes in a
  // hash id, a reference and columns that the store takes.
  ghost predicate AddPermitted(cr: Crypto, w0: World, keys: iset<PartitionKey>, rq: Request, fr: Fresh)
    requires rq.Add?
  {
    var w, digest := ProvisionKey(w0, rq.merchant, fr.key), cr.digest(Text(rq.data));
    var o := TruthOf(w.store, HashTable(digest));
    HashTable(digest) in keys &&
    if o.Some? && o.value.HashRow? then
      && LookupKey(rq.merchant, rq.customer, o.value.hashId) in keys
      && NoUndrainedDelete(w.store, o.value.hashId, rq.merchant, rq.customer)
      && !Misled(w.store, o.value.hashId, rq.merchant, rq.customer)
      && ((forall e :: !Card(cr, w, SlotOf(rq), e)) ==> Accepts(cr, w, keys, rq, fr, o.value.hashId))
    else
      && Allowed(w.store, keys, DoInsert(HashFor(cr, rq, fr)))
      && Accepts(cr, w.(store := InsertDirect(w.store, HashFor(cr, rq, fr)).0), keys, rq, fr, fr.hashId)
  }

  predicate Expired(o: Option<Row>, now: int) {
    o.Some? && o.value.LockerRow? && o.value.ttl.Some? && now > o.value.ttl.value
  }

  ghost predicate EventPermitted(cr: Crypto, w: World, keys: iset<PartitionKey>, e: CardEvent) {
    match e
    case Between(action) => LockerAllowed(w.store, keys, LockerAction.Environment(action))
    case Served(rq, fr) =>
      match rq
      case Add(_, _, _, _, _) => ValidRequest(rq, fr.now) ==> AddPermitted(cr, w, keys, rq, fr)
      case Remove(m, c, l) => m in w.keys ==> LockerAllowed(w.store, keys, LockerAction.RemoveLocker(Locker(m, c, l)))
      case Retrieve(m, c, l) =>
        var k := Locker(m, c, l);
        m in w.keys ==>
          && k in keys && !DeleteWindow(At(w.store, k))
          && (Expired(TruthOf(w.store, k), fr.now) ==> LockerAllowed(w.store, keys, LockerAction.RemoveLocker(k)))
  }

  lemma HashFound(cr: Crypto, w: World, keys: iset<PartitionKey>, digest: seq<byte>)
    requires CardInv(cr, w, keys) && HashTable(digest) in keys
    ensures FindById(w.store, HashTable(digest)) == PlainFind(TruthOf(w.store, HashTable(digest)))
    ensures TruthOf(w.store, HashTable(digest)).Some? ==>
              var h := TruthOf(w.store, HashTable(digest)).value;
              h.HashRow? && h.dataHash == digest && HashIs(w.store, keys, digest, h.hashId)
  {
    hide KeyString, Pending, ReplayRow, IndexSafe, LockerInv, FindById;
    InvReady(cr, w, keys);
    NoWindow(w.store, keys, HashTable(digest));
    TruthKeyed(w.store, HashTable(digest));
  }

  lemma KnownTextServed(cr: Crypto, w0: World, keys: iset<PartitionKey>, b: Book, rq: Request, fr: Fresh)
    requires Faithful(cr) && CardInv(cr, w0, keys) && ShowsBook(cr, w0, b)
    requires rq.Add? && ValidRequest(rq, fr.now) && AddPermitted(cr, w0, keys, rq, fr)
    requires TruthOf(w0.store, HashTable(cr.digest(Text(rq.data)))).Some?
    ensures var (w', r) := AddCard(cr, w0, rq, fr);
            var (b', r') := PlainServe(b, rq, fr);
            r == r' && CardInv(cr, w', keys) && ShowsBook(cr, w', b')
  {
    hide KeyString, Pending, ReplayRow, CardInv, Card, TruthOf, FindById, FindByLookup, SealAndInsert, InsertDirect, Accepts,
         ValidRequest, NoUndrainedDelete, Misled, RightAnswer, HashIs;
    var w, x, digest := ProvisionKey(w0, rq.merchant, fr.key), SlotOf(rq), cr.digest(Text(rq.data));
    KeyProvided(cr, w0, keys, rq.merchant, fr.key);
    HashFound(cr, w, keys, digest);
    var h := TruthOf(w.store, HashTable(digest)).value;
    assert LockerInv(w.store, keys) by { InvLockers(cr, w, keys); }
    FindByLookupRight(w.store, keys, h.hashId, rq.merchant, rq.customer);
    var found := FindByLookup(w.store, h.hashId, rq.merchant, rq.customer);
    SearchFindsCard(cr, w, keys, x, h.hashId, found);
    if found.Err? {
      EmptySlot(cr, w0, b, x);
      CardGoesIn(cr, w, keys, rq, fr, h);
      assert AddCard(cr, w0, rq, fr) == SealAndInsert(cr, w, rq, fr, h);
    }
  }

  lemma EmptySlot(cr: Crypto, w: World, b: Book, x: Slot)
    requires ShowsBook(cr, w, b)
    ensures x in b.entries ==> exists e :: Card(cr, w, x, e)
  {
    hide Card;
    if x in b.entries { assert Card(cr, w, x, b.entries[x]); }
  }

  lemma NewTextAdded(cr: Crypto, w0: World, keys: iset<PartitionKey>, rq: Request, fr: Fresh)
    requires Faithful(cr) && CardInv(cr, w0, keys)
    requires rq.Add? && ValidRequest(rq, fr.now) && AddPermitted(cr, w0, keys, rq, fr)
    requires TruthOf(w0.store, HashTable(cr.digest(Text(rq.data)))).None?
    ensures var (w', r) := AddCard(cr, w0, rq, fr);
            && r == Added(ReferenceFor(rq, fr), None) && CardInv(cr, w', keys)
            && w'.keys.Keys == w0.keys.Keys + {rq.merchant}
            && (forall e :: !Card(cr, w0, SlotOf(rq), e))
            && forall x, e :: Card(cr, w', x, e) <==> Card(cr, w0, x, e) || (x == SlotOf(rq) && e == EntryFor(rq, fr))
  {
    hide KeyString, Pending, ReplayRow, CardInv, Card, TruthOf, FindById, FindByLookup, SealAndInsert, InsertDirect, Accepts,
         ValidRequest, NoUndrainedDelete, Misled, RightAnswer, HashIs;
    var w := ProvisionKey(w0, rq.merchant, fr.key);
    KeyProvided(cr, w0, keys, rq.merchant, fr.key);
    HashFound(cr, w, keys, cr.digest(Text(rq.data)));
    NoHashNoCard(cr, w0, keys, SlotOf(rq));
    var row := HashFor(cr, rq, fr);
    HashGoesIn(cr, w, keys, row);
    var (s1, hash) := InsertDirect(w.store, row);
    assert InsertOrGet(w.store, row) == (s1, hash);
    var w1 := w.(store := s1);
    CardGoesIn(cr, w1, keys, rq, fr, hash.value);
    assert AddCard(cr, w0, rq, fr) == SealAndInsert(cr, w1, rq, fr, hash.value);
  }

  lemma AddServed(cr: Crypto, w0: World, keys: iset<PartitionKey>, b: Book, rq: Request, fr: Fresh)
    requires Faithful(cr) && CardInv(cr, w0, keys) && ShowsBook(cr, w0, b)
    requires rq.Add? && ValidRequest(rq, fr.now) && AddPermitted(cr, w0, keys, rq, fr)
    ensures var (w', r) := AddCard(cr, w0, rq, fr);
            var (b', r') := PlainServe(b, rq, fr);
            r == r' && CardInv(cr, w', keys) && ShowsBook(cr, w', b')
  {
    hide CardInv, Card, TruthOf, AddCard, ValidRequest, AddPermitted;
    if TruthOf(w0.store, HashTable(cr.digest(Text(rq.data)))).Some? {
      KnownTextServed(cr, w0, keys, b, rq, fr);
    } else {
      NewTextAdded(cr, w0, keys, rq, fr);
      EmptySlot(cr, w0, b, SlotOf(rq));
    }
  }

  lemma InvLockers(cr: Crypto, w: World, keys: iset<PartitionKey>)
    requires CardInv(cr, w, keys)
    ensures LockerInv(w.store, keys) && InsertOnly(w.store)
  {
  }

  lemma NoHashNoCard(cr: Crypto, w: World, keys: iset<PartitionKey>, x: Slot)
    requires CardInv(cr, w, keys) && TruthOf(w.store, HashTable(cr.digest(x.text))).None?
    ensures forall e :: !Card(cr, w, x, e)
  {
    hide TruthOf, CardInv, Card;
    forall e ensures !Card(cr, w, x, e) {
      if Card(cr, w, x, e) { CardHash(cr, w, keys, x, e, ""); }
    }
  }

  // A reference names the card whose row is there under it.
  lemma CardByReference(cr: Crypto, w: World, keys: iset<PartitionKey>, b: Book, m: string, c: string, l: string)
    requires CardInv(cr, w, keys) && ShowsBook(cr, w, b)
    ensures var o := TruthOf(w.store, Locker(m, c, l));
            (o.Some? <==> exists x :: x in b.entries && Named(x, b.entries[x], m, c, l))
            && forall x :: x in b.entries && Named(x, b.entries[x], m, c, l) ==>
                 && o.Some? && o.value.LockerRow? && m in w.keys && o.value.ttl == b.entries[x].ttl
                 && cr.open(w.keys[m], o.value.encData) == Some(b.entries[x].data)
  {
    hide KeyString, Pending, ReplayRow, TruthOf, CardInv;
    var o := TruthOf(w.store, Locker(m, c, l));
    if o.Some? {
      LockerColumns(cr, w, keys, m, c, l);
      var d := cr.open(w.keys[m], o.value.encData).value;
      assert Card(cr, w, Slot(m, c, StoredText(d)), Entry(l, d, o.value.ttl));
    }
    forall x | x in b.entries && Named(x, b.entries[x], m, c, l) ensures Card(cr, w, x, b.entries[x]) {
    }
  }

  lemma TakenOut(cr: Crypto, w: World, keys: iset<PartitionKey>, b: Book, m: string, c: string, l: string)
    requires CardInv(cr, w, keys) && ShowsBook(cr, w, b)
    requires LockerAllowed(w.store, keys, LockerAction.RemoveLocker(Locker(m, c, l)))
    ensures var w' := w.(store := DeleteLocker(w.store, Locker(m, c, l)).0);
            CardInv(cr, w', keys) && ShowsBook(cr, w', Without(b, m, c, l))
  {
    hide Card, CardInv, DeleteLocker, LockerAllowed;
    CardGoesOut(cr, w, keys, Locker(m, c, l));
  }

  lemma RetrieveServed(cr: Crypto, w: World, keys: iset<PartitionKey>, b: Book, rq: Request, fr: Fresh)
    requires CardInv(cr, w, keys) && ShowsBook(cr, w, b) && rq.Retrieve? && EventPermitted(cr, w, keys, Served(rq, fr))
    ensures var (w', r) := RetrieveCard(cr, w, rq, fr.now);
            var (b', r') := PlainServe(b, rq, fr);
            r == r' && CardInv(cr, w', keys) && ShowsBook(cr, w', b')
  {
    hide KeyString, Pending, ReplayRow, TruthOf, CardInv, Card, DeleteLocker, LockerAllowed, FindById, At, DeleteWindow;
    if rq.merchant in w.keys {
      var k := Locker(rq.merchant, rq.customer, rq.cardReference);
      assert FindById(w.store, k) == PlainFind(TruthOf(w.store, k)) by { LockerFound(cr, w, keys, k); }
      CardByReference(cr, w, keys, b, rq.merchant, rq.customer, rq.cardReference);
      if Expired(TruthOf(w.store, k), fr.now) { TakenOut(cr, w, keys, b, rq.merchant, rq.customer, rq.cardReference); }
    }
  }

  lemma LockerFound(cr: Crypto, w: World, keys: iset<PartitionKey>, k: PartitionKey)
    requires CardInv(cr, w, keys) && k in keys && !DeleteWindow(At(w.store, k))
    ensures FindById(w.store, k) == PlainFind(TruthOf(w.store, k))
  {
    hide KeyString, Pending, ReplayRow, FindById, DeleteWindow;
    InvReady(cr, w, keys);
    assert Sound(w.store, k);
    FindRefines(w.store, k);
  }

  lemma BetweenServed(cr: Crypto, w: World, keys: iset<PartitionKey>, b: Book, a: Action)
    requires CardInv(cr, w, keys) && ShowsBook(cr, w, b) && LockerAllowed(w.store, keys, LockerAction.Environment(a))
    ensures var w' := w.(store := Step(w.store, a).0); CardInv(cr, w', keys) && ShowsBook(cr, w', b)
  {
    hide KeyString, Pending, ReplayRow, IndexSafe, LockerInv, TruthOf, Step, InsertOnly, At;
    EnvironmentInv(w.store, keys, a);
    StaysInsertOnly(w.store, a);
    forall k | k in keys ensures TruthOf(Step(w.store, a).0, k) == TruthOf(w.store, k) {
      EnvironmentKeeps(w.store, keys, a, k);
    }
    SameCards(cr, w, w.(store := Step(w.store, a).0), keys, b);
  }

  // ----- whole runs -----

  // What an event does, and the reply if it is a request.
  ghost function CardStep(cr: Crypto, w: World, e: CardEvent): (World, Option<CardDedup.Reply>) {
    match e
    case Served(rq, fr) => (Serve(cr, w, rq, fr).0, Some(Serve(cr, w, rq, fr).1))
    case Between(action) => (w.(store := Step(w.store, action).0), None)
  }

  ghost function BookStep(b: Book, e: CardEvent): (Book, Option<CardDedup.Reply>) {
    match e
    case Served(rq, fr) => (PlainServe(b, rq, fr).0, Some(PlainServe(b, rq, fr).1))
    case Between(_) => (b, None)
  }

  ghost function CardRun(cr: Crypto, w: World, run: seq<CardEvent>): (World, seq<Option<CardDedup.Reply>>)
    decreases run
  {
    if run == [] then (w, []) else
    var (w1, r) := CardStep(cr, w, run[0]);
    var (w2, rs) := CardRun(cr, w1, run[1..]);
    (w2, [r] + rs)
  }

  ghost function BookRun(b: Book, run: seq<CardEvent>): (Book, seq<Option<CardDedup.Reply>>)
    decreases run
  {
    if run == [] then (b, []) else
    var (b1, r) := BookStep(b, run[0]);
    var (b2, rs) := BookRun(b1, run[1..]);
    (b2, [r] + rs)
  }

  ghost predicate PermittedRun(cr: Crypto, w: World, keys: iset<PartitionKey>, run: seq<CardEvent>)
    decreases run
  {
    run == [] || (EventPermitted(cr, w, keys, run[0]) && PermittedRun(cr, CardStep(cr, w, run[0]).0, keys, run[1..]))
  }

  lemma StepShowsBook(cr: Crypto, w: World, keys: iset<PartitionKey>, b: Book, e: CardEvent)
    requires Faithful(cr) && CardInv(cr, w, keys) && ShowsBook(cr, w, b) && EventPermitted(cr, w, keys, e)
    ensures var (w', r) := CardStep(cr, w, e);
            var (b', r') := BookStep(b, e);
            r == r' && CardInv(cr, w', keys) && ShowsBook(cr, w', b')
  {
    hide CardInv, ShowsBook, AddPermitted, AddCard, RetrieveCard, ValidRequest, LockerAllowed, DeleteLocker, Step, TruthOf;
    match e {
      case Between(a) => BetweenServed(cr, w, keys, b, a);
      case Served(rq, fr) =>
        match rq {
          case Add(_, _, _, _, _) =>
            AddInvalid(cr, w, rq, fr);
            if ValidRequest(rq, fr.now) { AddServed(cr, w, keys, b, rq, fr); }
          case Remove(m, c, l) =>
            assert m in w.keys <==> m in b.merchants by { SameMerchants(cr, w, b); }
            if m in w.keys { TakenOut(cr, w, keys, b, m, c, l); }
          case Retrieve(_, _, _) => RetrieveServed(cr, w, keys, b, rq, fr);
        }
    }
  }

  lemma SameMerchants(cr: Crypto, w: World, b: Book)
    requires ShowsBook(cr, w, b)
    ensures w.keys.Keys == b.merchants
  {
  }

  // The truths hold the book.
  ghost predicate HoldsBook(cr: Crypto, w: World, keys: iset<PartitionKey>, b: Book) {
    Faithful(cr) && CardInv(cr, w, keys) && ShowsBook(cr, w, b)
  }

  // What a route promises in every mode.
  lemma RoutePromise(cr: Crypto, w: World, keys: iset<PartitionKey>, b: Book, rq: Request, fr: Fresh)
    requires HoldsBook(cr, w, keys, b) && EventPermitted(cr, w, keys, Served(rq, fr))
    ensures Serve(cr, w, rq, fr).1 == PlainServe(b, rq, fr).1
    ensures HoldsBook(cr, Serve(cr, w, rq, fr).0, keys, PlainServe(b, rq, fr).0)
  {
    hide CardInv, ShowsBook, EventPermitted, Faithful, Serve, PlainServe;
    StepShowsBook(cr, w, keys, b, Served(rq, fr));
  }

  lemma LockerThere(cr: Crypto, w: World, keys: iset<PartitionKey>, k: PartitionKey)
    requires CardInv(cr, w, keys) && k.Locker? && TruthOf(w.store, k).Some?
    ensures FindById(w.store, k) == Ok(TruthOf(w.store, k).value)
  {
    hide KeyString, Pending, ReplayRow, FindById, IndexSafe, InUse;
    InvReady(cr, w, keys);
    TruthInUse(w.store, keys, k);
    assert LockerComplete(w.store, keys, k) && Sound(w.store, k);
    var pending := At(w.store, k).pending;
    if pending != [] { assert pending[|pending| - 1] in pending; }
    FindRefines(w.store, k);
  }

  // In every mode a new card is answered with the caller's own reference if there is one, the generated one
  // otherwise, and asking for that reference gives back the data until it expires.
  lemma NewCardServed(
      cr: Crypto, w: World, keys: iset<PartitionKey>, b: Book, rq: Request, fr: Fresh, text: string, stored: StoredData,
      reference: string, now: int)
    requires HoldsBook(cr, w, keys, b) && EventPermitted(cr, w, keys, Served(rq, fr))
    requires Brings(rq, fr, text, stored, reference) && Slot(rq.merchant, rq.customer, text) !in b.entries
    ensures var (w', r) := AddCard(cr, w, rq, fr);
            && r == Added(reference, None)
            && RetrieveCard(cr, w', Retrieve(rq.merchant, rq.customer, reference), now).1
               == if rq.ttl.Some? && now > rq.ttl.value then Failed(NotFoundError) else Retrieved(stored)
  {
    hide CardInv, EventPermitted, Faithful, AddCard, DeleteLocker, FindById, TruthOf;
    RoutePromise(cr, w, keys, b, rq, fr);
    var w' := AddCard(cr, w, rq, fr).0;
    var x, e := Slot(rq.merchant, rq.customer, text), Entry(reference, stored, rq.ttl);
    var b' := PlainServe(b, rq, fr).0;
    assert x in b'.entries && b'.entries[x] == e;
    assert Card(cr, w', x, e);
    LockerThere(cr, w', keys, Locker(rq.merchant, rq.customer, reference));
  }

  // In every mode, and with replay, expiry and mode changes anywhere between the requests, every reply of a run is
  // the card book's reply.
  lemma {:induction false} RunServesBook(cr: Crypto, w: World, keys: iset<PartitionKey>, b: Book, run: seq<CardEvent>)
    requires Faithful(cr) && CardInv(cr, w, keys) && ShowsBook(cr, w, b) && PermittedRun(cr, w, keys, run)
    ensures CardRun(cr, w, run).1 == BookRun(b, run).1
    ensures CardInv(cr, CardRun(cr, w, run).0, keys) && ShowsBook(cr, CardRun(cr, w, run).0, BookRun(b, run).0)
    decreases run
  {
    hide CardInv, ShowsBook, EventPermitted, CardStep, BookStep, Faithful;
    if run != [] {
      StepShowsBook(cr, w, keys, b, run[0]);
      RunServesBook(cr, CardStep(cr, w, run[0]).0, keys, BookStep(b, run[0]).0, run[1..]);
    }
  }

  // An empty vault holds the empty book.
  lemma EmptyVault(cr: Crypto, mode: KvState, shardOf: PartitionKey -> nat, keys: iset<PartitionKey>)
    requires Distinct(keys)
    ensures var w := World(State(mode, map[], map[], map[], shardOf), map[]);
            CardInv(cr, w, keys) && ShowsBook(cr, w, Book(map[], {}))
  {
    hide KeyString, Distinct;
    var s := State(mode, map[], map[], map[], shardOf);
    StartLockers(s, keys);
    EmptyPending(s);
    forall k ensures TruthOf(s, k) == None { SettledTruth(At(s, k)); }
  }

  lemma OtherTable(row: Row, k: PartitionKey)
    requires row.HashRow? && (k.Locker? || k.ReverseLookup?)
    ensures Apart(KeyOf(row), k)
  {
    hide KeyString;
    if KeyString(KeyOf(row)) == KeyString(k) { TablesDisjoint(KeyOf(row), k); }
  }

  predicate EmptyStore(s: State) {
    s.redis == map[] && s.streams == map[] && s.pg == map[]
  }

  lemma EmptyAt(s: State, k: PartitionKey)
    requires EmptyStore(s)
    ensures At(s, k) == Cell(None, [], None) && TruthOf(s, k) == None
  {
    hide KeyString;
    EmptyPending(s);
    SettledTruth(At(s, k));
  }

  lemma TakesHash(s: State, keys: iset<PartitionKey>, row: Row)
    requires EmptyStore(s) && row.HashRow? && KeyOf(row) in keys
    ensures Allowed(s, keys, DoInsert(row))
  {
    hide KeyString;
    EmptyAt(s, KeyOf(row));
    assert Unclaimed(s, row);
  }

  lemma HashElsewhere(s: State, row: Row, k: PartitionKey)
    requires EmptyStore(s) && row.HashRow? && (k.Locker? || k.ReverseLookup?)
    ensures At(InsertDirect(s, row).0, k) == Cell(None, [], None) && TruthOf(InsertDirect(s, row).0, k) == None
  {
    hide KeyString, InsertDirect, Pending, ReplayRow;
    OtherTable(row, k);
    InsertEffect(s, row, k);
    EmptyAt(s, k);
    FreshTruth(InsertDirect(s, row).0, k);
  }

  lemma HashClaims(s: State, row: Row, locker: Row)
    requires EmptyStore(s) && row.HashRow? && locker.LockerRow?
    ensures Unclaimed(InsertDirect(s, row).0, locker) && InsertDirect(s, row).0.mode == s.mode
  {
    hide KeyString, Violates;
    assert Unclaimed(s, locker);
    StillUnclaimed(s, row, locker);
    InsertKeepsMode(s, row);
  }

  lemma ThenTakesLocker(s: State, keys: iset<PartitionKey>, row: Row, locker: Row)
    requires EmptyStore(s) && row.HashRow? && locker.LockerRow?
    requires KeyOf(locker) in keys && ReverseLookup(LookupIdOf(locker)) in keys
    ensures var s1 := InsertDirect(s, row).0;
            LockerAllowed(s1, keys, LockerAction.AddLocker(locker)) && !AddRefused(s1, locker)
  {
    hide KeyString, InsertDirect, Pending, ReplayRow, LookupId, Unclaimed, Violates;
    var s1 := InsertDirect(s, row).0;
    HashElsewhere(s, row, KeyOf(locker));
    HashElsewhere(s, row, ReverseLookup(LookupIdOf(locker)));
    HashClaims(s, row, locker);
    NotTaken(s1, locker);
  }

  lemma NotTaken(s: State, row: Row)
    requires Unclaimed(s, row) && At(s, KeyOf(row)).stored.None?
    ensures !Violates(s.pg, row)
  {
    hide KeyString, Pending;
  }

  // And it can take any first card, in every mode.
  lemma FirstAddPermitted(
      cr: Crypto, mode: KvState, shardOf: PartitionKey -> nat, keys: iset<PartitionKey>, rq: Request, fr: Fresh)
    requires Distinct(keys) && rq.Add?
    requires HashTable(cr.digest(Text(rq.data))) in keys && KeyFor(rq, fr) in keys
    requires LookupKey(rq.merchant, rq.customer, fr.hashId) in keys
    ensures var w := World(State(mode, map[], map[], map[], shardOf), map[]);
            EventPermitted(cr, w, keys, Served(rq, fr))
  {
    hide KeyString, LookupId, Distinct, ValidRequest, TruthOf, Allowed, LockerAllowed, AddRefused, InsertDirect, Card;
    var w := ProvisionKey(World(State(mode, map[], map[], map[], shardOf), map[]), rq.merchant, fr.key);
    var row, locker := HashFor(cr, rq, fr), LockerFor(cr, w, rq, fr, fr.hashId);
    EmptyAt(w.store, KeyOf(row));
    TakesHash(w.store, keys, row);
    ThenTakesLocker(w.store, keys, row, locker);
  }
}

/** The add, delete and retrieve routes as a deduplicating card store, with the KV path disabled. */
module CardDedup {
  import opened Wrappers
  import opened Hex
  import opened Keys
  import opened Rows
  import opened Replay
  import opened KvStore
  import opened Validations

  type Key = seq<byte>

  // `details` are the other fields of a card: name, expiry, brand and so on.
  datatype Card = Card(number: string, details: seq<Option<string>>)

  datatype Data = EncData(text: string) | CardData(card: Card)

  datatype StoredData = StoredEnc(text: string) | StoredCard(card: Card)

  datatype Request =
    | Add(merchant: string, customer: string, reference: Option<string>, data: Data, ttl: Option<int>)
    | Remove(merchant: string, customer: string, cardReference: string)
    | Retrieve(merchant: string, customer: string, cardReference: string)

  datatype Check = Duplicated | MetaDataChanged

  datatype ApiError = InvalidRequest | NotFoundError | StorageError | DecodingError

  datatype Reply =
    | Added(reference: string, check: Option<Check>)
    | Removed
    | Retrieved(data: StoredData)
    | Failed(error: ApiError)

  // What the clock and the generators return while one request is served.
  datatype Fresh = Fresh(now: int, hashId: string, reference: string, key: Key, nonce: seq<byte>)

  datatype Crypto = Crypto(
    digest: string -> seq<byte>,
    seal: (Key, seq<byte>, StoredData) -> seq<byte>,
    open: (Key, seq<byte>) -> Option<StoredData>)

  ghost predicate Faithful(cr: Crypto) {
    && (forall a, b :: cr.digest(a) == cr.digest(b) ==> a == b)
    && (forall k, n, d :: cr.open(k, cr.seal(k, n, d)) == Some(d))
  }

  datatype World = World(store: State, keys: map<string, Key>)

  // ----- the routes -----

  function Text(d: Data): string {
    match d
    case EncData(text) => text
    case CardData(card) => card.number
  }

  function StoredText(d: StoredData): string {
    match d
    case StoredEnc(text) => text
    case StoredCard(card) => card.number
  }

  function Store(d: Data): StoredData {
    match d
    case EncData(text) => StoredEnc(text)
    case CardData(card) => StoredCard(card)
  }

  predicate SameData(stored: StoredData, d: Data) {
    match (stored, d)
    case (StoredEnc(a), EncData(b)) => a == b
    case (StoredCard(a), CardData(b)) => a == b
    case _ => false
  }

  function Duplication(stored: StoredData, d: Data): Check {
    if SameData(stored, d) then Duplicated else MetaDataChanged
  }

  predicate ValidRequest(rq: Request, now: int)
    requires rq.Add?
  {
    && (rq.ttl.Some? ==> rq.ttl.value > now)
    && (rq.data.CardData? ==> ValidCardNumber(rq.data.card.number))
  }

  function ReferenceFor(rq: Request, fr: Fresh): string
    requires rq.Add?
  {
    if rq.reference.Some? then rq.reference.value else fr.reference
  }

  function ProvisionKey(w: World, m: string, key: Key): World {
    if m in w.keys then w else w.(keys := w.keys[m := key])
  }

  function HashFor(cr: Crypto, rq: Request, fr: Fresh): Row
    requires rq.Add?
  {
    HashRow(fr.hashId, cr.digest(Text(rq.data)), fr.now, Some(PostgresOnly))
  }

  function LockerFor(cr: Crypto, w: World, rq: Request, fr: Fresh, hashId: string): Row
    requires rq.Add? && rq.merchant in w.keys
  {
    LockerRow(ReferenceFor(rq, fr), rq.merchant, rq.customer, cr.seal(w.keys[rq.merchant], fr.nonce, Store(rq.data)),
              fr.now, hashId, rq.ttl, Some(PostgresOnly))
  }

  function InsertOrGet(s: State, new_: Row): (State, Result<Row>) {
    var (s', r) := if new_.LockerRow? then InsertLocker(s, new_) else InsertDirect(s, new_);
    if r == Err(Duplicate) then (s', FindById(s', KeyOf(new_))) else (s', r)
  }

  // Seal the data and store it under a new reference.
  function SealAndInsert(cr: Crypto, w: World, rq: Request, fr: Fresh, hash: Row): (World, Reply)
    requires rq.Add? && rq.merchant in w.keys
  {
    if !hash.HashRow? then (w, Failed(StorageError)) else
    var (s, r) := InsertOrGet(w.store, LockerFor(cr, w, rq, fr, hash.hashId));
    (w.(store := s), if r.Ok? && r.value.LockerRow? then Added(r.value.lockerId, None)
                     else Failed(if r == Err(NotFound) then NotFoundError else StorageError))
  }

  ghost function AddCard(cr: Crypto, w0: World, rq: Request, fr: Fresh): (World, Reply)
    requires rq.Add?
  {
    if !ValidRequest(rq, fr.now) then (w0, Failed(InvalidRequest)) else
    var found := FindById(w0.store, HashTable(cr.digest(Text(rq.data))));
    var w := ProvisionKey(w0, rq.merchant, fr.key);
    if found.Ok? && found.value.HashRow? then
      var locker := FindByLookup(w.store, found.value.hashId, rq.merchant, rq.customer);
      if locker.Ok? && locker.value.LockerRow? then
        var d := cr.open(w.keys[rq.merchant], locker.value.encData);
        (w, if d.Some? then Added(locker.value.lockerId, Some(Duplication(d.value, rq.data))) else Failed(DecodingError))
      else if locker == Err(NotFound) then SealAndInsert(cr, w, rq, fr, found.value)
      else (w, Failed(StorageError))
    else if found == Err(NotFound) then
      var (s, hash) := InsertOrGet(w.store, HashFor(cr, rq, fr));
      if hash.Ok? then SealAndInsert(cr, w.(store := s), rq, fr, hash.value)
      else (w.(store := s), Failed(StorageError))
    else (w, Failed(StorageError))
  }

  function RemoveCard(w: World, rq: Request): (World, Reply)
    requires rq.Remove?
  {
    if rq.merchant !in w.keys then (w, Failed(NotFoundError))
    else (w.(store := DeleteLocker(w.store, Locker(rq.merchant, rq.customer, rq.cardReference)).0), Removed)
  }

  // An expired card is reported missing and removed.
  function RetrieveCard(cr: Crypto, w: World, rq: Request, now: int): (World, Reply)
    requires rq.Retrieve?
  {
    if rq.merchant !in w.keys then (w, Failed(NotFoundError)) else
    var k := Locker(rq.merchant, rq.customer, rq.cardReference);
    var locker := FindById(w.store, k);
    if locker == Err(NotFound) then (w, Failed(NotFoundError))
    else if locker.Err? || !locker.value.LockerRow? then (w, Failed(StorageError)) else
    var d := cr.open(w.keys[rq.merchant], locker.value.encData);
    if d.None? then (w, Failed(DecodingError))
    else if locker.value.ttl.Some? && now > locker.value.ttl.value then
      (w.(store := DeleteLocker(w.store, k).0), Failed(NotFoundError))
    else (w, Retrieved(d.value))
  }

  ghost function Serve(cr: Crypto, w: World, rq: Request, fr: Fresh): (World, Reply) {
    match rq
    case Add(_, _, _, _, _) => AddCard(cr, w, rq, fr)
    case Remove(_, _, _) => RemoveCard(w, rq)
    case Retrieve(_, _, _) => RetrieveCard(cr, w, rq, fr.now)
  }

  // ----- the card book: what the routes are for -----

  datatype Slot = Slot(merchant: string, customer: string, text: string)

  datatype Entry = Entry(reference: string, data: StoredData, ttl: Option<int>)

  datatype Book = Book(entries: map<Slot, Entry>, merchants: set<string>)

  function KeyFor(rq: Request, fr: Fresh): PartitionKey
    requires rq.Add?
  {
    Locker(rq.merchant, rq.customer, ReferenceFor(rq, fr))
  }

  function EntryFor(rq: Request, fr: Fresh): Entry
    requires rq.Add?
  {
    Entry(ReferenceFor(rq, fr), Store(rq.data), rq.ttl)
  }

  function SlotOf(rq: Request): Slot
    requires rq.Add?
  {
    Slot(rq.merchant, rq.customer, Text(rq.data))
  }

  predicate Named(x: Slot, e: Entry, m: string, c: string, reference: string) {
    x.merchant == m && x.customer == c && e.reference == reference
  }

  function Without(b: Book, m: string, c: string, reference: string): Book {
    b.(entries := map x | x in b.entries && !Named(x, b.entries[x], m, c, reference) :: b.entries[x])
  }

  ghost function PlainServe(b: Book, rq: Request, fr: Fresh): (Book, Reply) {
    match rq
    case Add(m, _, _, data, _) =>
      if !ValidRequest(rq, fr.now) then (b, Failed(InvalidRequest)) else
      var b' := b.(merchants := b.merchants + {m});
      var x := SlotOf(rq);
      if x in b.entries then
        (b', Added(b.entries[x].reference, Some(Duplication(b.entries[x].data, data))))
      else
        (b'.(entries := b.entries[x := EntryFor(rq, fr)]),
         Added(ReferenceFor(rq, fr), None))
    case Remove(m, c, reference) =>
      if m !in b.merchants then (b, Failed(NotFoundError)) else (Without(b, m, c, reference), Removed)
    case Retrieve(m, c, reference) =>
      if m !in b.merchants then (b, Failed(NotFoundError))
      else if x :| x in b.entries && Named(x, b.entries[x], m, c, reference) then
        if b.entries[x].ttl.Some? && fr.now > b.entries[x].ttl.value
        then (Without(b, m, c, reference), Failed(NotFoundError))
        else (b, Retrieved(b.entries[x].data))
      else (b, Failed(NotFoundError))
  }

  // ----- how the tables hold the book -----

  // Every locker opens under its merchant's key, and its hash is the stored hash of what is inside.
  ghost predicate LockerHolds(cr: Crypto, w: World, row: Row)
    requires row.LockerRow?
  {
    && row.merchantId in w.keys
    && cr.open(w.keys[row.merchantId], row.encData).Some?
    && var h := HashTable(cr.digest(StoredText(cr.open(w.keys[row.merchantId], row.encData).value)));
       h in w.store.pg && w.store.pg[h].HashRow? && w.store.pg[h].hashId == row.lockerHashId
  }

  ghost predicate Inv(cr: Crypto, w: World) {
    && w.store.mode == Disabled
    && (forall k :: k in w.store.pg ==> KeyOf(w.store.pg[k]) == k)
    && UniqueLockers(w.store.pg)
    && (forall k :: k in w.store.pg && w.store.pg[k].LockerRow? ==> LockerHolds(cr, w, w.store.pg[k]))
  }

  // What a search for a slot finds, the way the add route searches.
  ghost function Held(cr: Crypto, w: World, x: Slot): Option<Entry> {
    var h := Lookup(w.store.pg, HashTable(cr.digest(x.text)));
    if h.None? || !h.value.HashRow? then None else
    var r := PgFindByColumns(w.store, h.value.hashId, x.merchant, x.customer);
    if r.Err? || !r.value.LockerRow? || x.merchant !in w.keys then None else
    var d := cr.open(w.keys[x.merchant], r.value.encData);
    if d.None? then None else Some(Entry(r.value.lockerId, d.value, r.value.ttl))
  }

  ghost predicate Shows(cr: Crypto, w: World, b: Book) {
    w.keys.Keys == b.merchants && forall x :: Held(cr, w, x) == Lookup(b.entries, x)
  }

  // The same, read off the locker row itself.
  ghost predicate RowHolds(cr: Crypto, w: World, x: Slot, e: Entry) {
    var k := Locker(x.merchant, x.customer, e.reference);
    && k in w.store.pg && w.store.pg[k].LockerRow? && x.merchant in w.keys
    && cr.open(w.keys[x.merchant], w.store.pg[k].encData) == Some(e.data)
    && w.store.pg[k].ttl == e.ttl && StoredText(e.data) == x.text
  }

  lemma ColumnsFound(s: State, k: PartitionKey, h: string, m: string, c: string)
    requires UniqueLockers(s.pg) && k in s.pg && HasColumns(s.pg[k], h, m, c)
    ensures PgFindByColumns(s, h, m, c) == Ok(s.pg[k])
  {
    assert exists k' :: k' in s.pg && HasColumns(s.pg[k'], h, m, c);
    var found := PgFindByColumns(s, h, m, c);
    assert found.Ok? && HasColumns(found.value, h, m, c);
    var k' :| k' in s.pg && HasColumns(s.pg[k'], h, m, c) && s.pg[k'] == found.value;
    assert HasColumns(s.pg[k'], h, m, c);
    assert Clash(s.pg[k], s.pg[k']);
  }

  lemma HeldIsRow(cr: Crypto, w: World, x: Slot, e: Entry)
    requires Faithful(cr) && Inv(cr, w)
    ensures Held(cr, w, x) == Some(e) <==> RowHolds(cr, w, x, e)
  {
    var pg := w.store.pg;
    var hk := HashTable(cr.digest(x.text));
    if Held(cr, w, x) == Some(e) {
      var r := PgFindByColumns(w.store, pg[hk].hashId, x.merchant, x.customer);
      var k :| k in pg && HasColumns(pg[k], pg[hk].hashId, x.merchant, x.customer) && r == Ok(pg[k]);
      assert LockerHolds(cr, w, pg[k]);
      var hk' := HashTable(cr.digest(StoredText(e.data)));
      assert Clash(pg[hk], pg[hk']);
    }
    if RowHolds(cr, w, x, e) {
      var k := Locker(x.merchant, x.customer, e.reference);
      assert LockerHolds(cr, w, pg[k]);
      ColumnsFound(w.store, k, pg[hk].hashId, x.merchant, x.customer);
    }
  }

  lemma ShowsByRows(cr: Crypto, w: World, b: Book)
    requires Faithful(cr) && Inv(cr, w)
    ensures (forall x :: Held(cr, w, x) == Lookup(b.entries, x))
       <==> (forall x, e :: RowHolds(cr, w, x, e) <==> (x in b.entries && b.entries[x] == e))
  {
    forall x, e ensures Held(cr, w, x) == Some(e) <==> RowHolds(cr, w, x, e) { HeldIsRow(cr, w, x, e); }
    if forall x, e :: RowHolds(cr, w, x, e) <==> (x in b.entries && b.entries[x] == e) {
      forall x ensures Held(cr, w, x) == Lookup(b.entries, x) {
        if Held(cr, w, x).Some? { assert RowHolds(cr, w, x, Held(cr, w, x).value); }
        if x in b.entries { assert RowHolds(cr, w, x, b.entries[x]); }
      }
    }
    if forall x :: Held(cr, w, x) == Lookup(b.entries, x) {
      forall x, e ensures RowHolds(cr, w, x, e) <==> (x in b.entries && b.entries[x] == e) {
        assert Held(cr, w, x) == Lookup(b.entries, x);
      }
    }
  }

  // ----- each route keeps the book -----

  ghost predicate FreshHash(w: World, hashId: string) {
    forall k :: k in w.store.pg && w.store.pg[k].HashRow? ==> w.store.pg[k].hashId != hashId
  }

  // A new hash row and a new key leave every locker as it was.
  lemma HashAdded(cr: Crypto, w: World, row: Row)
    requires Inv(cr, w) && row.HashRow? && KeyOf(row) !in w.store.pg && FreshHash(w, row.hashId)
    ensures var w' := w.(store := w.store.(pg := w.store.pg[KeyOf(row) := row]));
            && Inv(cr, w')
            && (forall x, e :: RowHolds(cr, w', x, e) <==> RowHolds(cr, w, x, e))
            && !Violates(w.store.pg, row)
  {
    var w' := w.(store := w.store.(pg := w.store.pg[KeyOf(row) := row]));
    forall k | k in w'.store.pg && w'.store.pg[k].LockerRow? ensures LockerHolds(cr, w', w'.store.pg[k]) {
      assert LockerHolds(cr, w, w.store.pg[k]);
    }
  }

  lemma KeyAdded(cr: Crypto, w: World, m: string, key: Key)
    requires Inv(cr, w)
    ensures var w' := ProvisionKey(w, m, key);
            Inv(cr, w') && (forall x, e :: RowHolds(cr, w', x, e) <==> RowHolds(cr, w, x, e))
  {
    var w' := ProvisionKey(w, m, key);
    forall k | k in w'.store.pg && w'.store.pg[k].LockerRow? ensures LockerHolds(cr, w', w'.store.pg[k]) {
      assert LockerHolds(cr, w, w.store.pg[k]);
    }
    forall x, e ensures RowHolds(cr, w', x, e) <==> RowHolds(cr, w, x, e) {
      var k := Locker(x.merchant, x.customer, e.reference);
      if k in w.store.pg && w.store.pg[k].LockerRow? { assert LockerHolds(cr, w, w.store.pg[k]); }
    }
  }

  lemma NoLockerInSlot(cr: Crypto, w: World, x: Slot, k: PartitionKey)
    requires Faithful(cr) && Inv(cr, w) && k in w.store.pg
    requires var hk := HashTable(cr.digest(x.text));
             hk in w.store.pg && w.store.pg[hk].HashRow?
             && HasColumns(w.store.pg[k], w.store.pg[hk].hashId, x.merchant, x.customer)
    ensures exists e :: RowHolds(cr, w, x, e)
  {
    var hk, row := HashTable(cr.digest(x.text)), w.store.pg[k];
    assert LockerHolds(cr, w, row);
    var d := cr.open(w.keys[row.merchantId], row.encData).value;
    var hk' := HashTable(cr.digest(StoredText(d)));
    assert Clash(w.store.pg[hk], w.store.pg[hk']);
    assert RowHolds(cr, w, x, Entry(row.lockerId, d, row.ttl));
  }

  // The insert stores the card in its slot, unless the reference is in use: then it answers alike and stores nothing.
  lemma SealAndInsertEffect(cr: Crypto, w: World, rq: Request, fr: Fresh, hash: Row)
    requires Faithful(cr) && Inv(cr, w) && rq.Add? && rq.merchant in w.keys
    requires hash.HashRow? && hash.dataHash == cr.digest(Text(rq.data)) && KeyOf(hash) in w.store.pg
    requires w.store.pg[KeyOf(hash)] == hash
    requires forall e :: !RowHolds(cr, w, SlotOf(rq), e)
    ensures var (w', r) := SealAndInsert(cr, w, rq, fr, hash);
            var k, new_ := KeyFor(rq, fr), EntryFor(rq, fr);
            && Inv(cr, w') && w'.keys == w.keys
            && r == Added(ReferenceFor(rq, fr), None)
            && (k in w.store.pg ==> w' == w)
            && (k !in w.store.pg ==> forall x, e :: RowHolds(cr, w', x, e) <==>
                                                    RowHolds(cr, w, x, e) || (x == SlotOf(rq) && e == new_))
  {
    var row := LockerFor(cr, w, rq, fr, hash.hashId);
    var k := KeyOf(row);
    var pg := w.store.pg;
    forall k' | k' in pg ensures !HasColumns(pg[k'], hash.hashId, rq.merchant, rq.customer) {
      if HasColumns(pg[k'], hash.hashId, rq.merchant, rq.customer) { NoLockerInSlot(cr, w, SlotOf(rq), k'); }
    }
    assert forall k' :: k' in pg ==> !Clash(pg[k'], row);
    if k in pg {
      assert KeyOf(pg[k]) == k;
    } else {
      InsertedRow(cr, w, rq, fr, row);
    }
  }

  lemma InsertedRow(cr: Crypto, w: World, rq: Request, fr: Fresh, row: Row)
    requires Faithful(cr) && Inv(cr, w) && rq.Add? && rq.merchant in w.keys && row.LockerRow?
    requires row == LockerFor(cr, w, rq, fr, row.lockerHashId)
    requires var hk := HashTable(cr.digest(Text(rq.data)));
             hk in w.store.pg && w.store.pg[hk].HashRow? && w.store.pg[hk].hashId == row.lockerHashId
    requires KeyOf(row) !in w.store.pg && forall k :: k in w.store.pg ==> !Clash(w.store.pg[k], row)
    ensures var w' := w.(store := w.store.(pg := w.store.pg[KeyOf(row) := row]));
            var new_ := EntryFor(rq, fr);
            && Inv(cr, w')
            && forall x, e :: RowHolds(cr, w', x, e) <==> RowHolds(cr, w, x, e) || (x == SlotOf(rq) && e == new_)
  {
    var w' := w.(store := w.store.(pg := w.store.pg[KeyOf(row) := row]));
    assert cr.open(w.keys[rq.merchant], row.encData) == Some(Store(rq.data));
    forall k | k in w'.store.pg && w'.store.pg[k].LockerRow? ensures LockerHolds(cr, w', w'.store.pg[k]) {
      if k != KeyOf(row) { assert LockerHolds(cr, w, w.store.pg[k]); }
    }
    assert forall k :: k in w.store.pg ==> !Clash(row, w.store.pg[k]) && !Clash(w.store.pg[k], row);
    forall k, k' | k in w'.store.pg && k' in w'.store.pg && Clash(w'.store.pg[k], w'.store.pg[k']) ensures k == k' {
      if k != KeyOf(row) && k' != KeyOf(row) { assert Clash(w.store.pg[k], w.store.pg[k']); }
    }
  }

  lemma AddExisting(cr: Crypto, w: World, rq: Request, fr: Fresh, e: Entry)
    requires Faithful(cr) && Inv(cr, w) && rq.Add? && ValidRequest(rq, fr.now) && RowHolds(cr, w, SlotOf(rq), e)
    ensures AddCard(cr, w, rq, fr) == (w, Added(e.reference, Some(Duplication(e.data, rq.data))))
    ensures rq.merchant in w.keys
  {
    hide Clash, Violates, ValidRequest;
    HeldIsRow(cr, w, SlotOf(rq), e);
  }

  lemma AddNew(cr: Crypto, w: World, rq: Request, fr: Fresh)
    requires Faithful(cr) && Inv(cr, w) && rq.Add? && ValidRequest(rq, fr.now) && FreshHash(w, fr.hashId)
    requires forall e :: !RowHolds(cr, w, SlotOf(rq), e)
    ensures var (w', r) := AddCard(cr, w, rq, fr);
            var k, new_ := KeyFor(rq, fr), EntryFor(rq, fr);
            && Inv(cr, w') && w'.keys.Keys == w.keys.Keys + {rq.merchant}
            && r == Added(ReferenceFor(rq, fr), None)
            && (forall x, e :: RowHolds(cr, w', x, e) <==>
                  RowHolds(cr, w, x, e) || (k !in w.store.pg && x == SlotOf(rq) && e == new_))
  {
    hide Clash, Violates, RowHolds, LockerHolds, ValidRequest, SealAndInsert;
    var hk := HashTable(cr.digest(Text(rq.data)));
    KeyAdded(cr, w, rq.merchant, fr.key);
    var w1 := ProvisionKey(w, rq.merchant, fr.key);
    if hk in w.store.pg {
      var hash := w.store.pg[hk];
      var found := PgFindByColumns(w1.store, hash.hashId, rq.merchant, rq.customer);
      if found.Ok? {
        var k :| k in w1.store.pg && HasColumns(w1.store.pg[k], hash.hashId, rq.merchant, rq.customer);
        NoLockerInSlot(cr, w1, SlotOf(rq), k);
      }
      SealAndInsertEffect(cr, w1, rq, fr, hash);
    } else {
      AddNewText(cr, w, rq, fr);
    }
  }

  lemma AddNewText(cr: Crypto, w: World, rq: Request, fr: Fresh)
    requires Faithful(cr) && Inv(cr, w) && rq.Add? && ValidRequest(rq, fr.now) && FreshHash(w, fr.hashId)
    requires forall e :: !RowHolds(cr, w, SlotOf(rq), e)
    requires HashTable(cr.digest(Text(rq.data))) !in w.store.pg
    ensures var (w', r) := AddCard(cr, w, rq, fr);
            var k, new_ := KeyFor(rq, fr), EntryFor(rq, fr);
            && Inv(cr, w') && w'.keys.Keys == w.keys.Keys + {rq.merchant}
            && r == Added(ReferenceFor(rq, fr), None)
            && (forall x, e :: RowHolds(cr, w', x, e) <==>
                  RowHolds(cr, w, x, e) || (k !in w.store.pg && x == SlotOf(rq) && e == new_))
  {
    hide Clash, Violates, RowHolds, LockerHolds, ValidRequest, SealAndInsert;
    var row := HashFor(cr, rq, fr);
    KeyAdded(cr, w, rq.merchant, fr.key);
    var w1 := ProvisionKey(w, rq.merchant, fr.key);
    HashAdded(cr, w1, row);
    var w2 := w1.(store := w1.store.(pg := w1.store.pg[KeyOf(row) := row]));
    SealAndInsertEffect(cr, w2, rq, fr, row);
    assert AddCard(cr, w, rq, fr) == SealAndInsert(cr, w2, rq, fr, row);
  }

  lemma AddInvalid(cr: Crypto, w: World, rq: Request, fr: Fresh)
    requires rq.Add?
    ensures !ValidRequest(rq, fr.now) ==> AddCard(cr, w, rq, fr) == (w, Failed(InvalidRequest))
  {
  }

  // The add route does to the book what it promises, except that a new card under a reference in use is not stored.
  lemma AddRefines(cr: Crypto, w: World, b: Book, rq: Request, fr: Fresh)
    requires Faithful(cr) && Inv(cr, w) && Shows(cr, w, b) && rq.Add? && FreshHash(w, fr.hashId)
    ensures var (w', r) := AddCard(cr, w, rq, fr);
            var (b', r') := PlainServe(b, rq, fr);
            && r == r' && Inv(cr, w')
            && (Shows(cr, w', b') <==> (!ValidRequest(rq, fr.now) || SlotOf(rq) in b.entries
                                        || KeyFor(rq, fr) !in w.store.pg))
  {
    hide Clash, Violates, RowHolds, LockerHolds, ValidRequest, Held, Inv, AddCard;
    var (w', r) := AddCard(cr, w, rq, fr);
    var (b', _) := PlainServe(b, rq, fr);
    AddInvalid(cr, w, rq, fr);
    if !ValidRequest(rq, fr.now) { return; }
    ShowsByRows(cr, w, b);
    var x := SlotOf(rq);
    if x in b.entries {
      assert RowHolds(cr, w, x, b.entries[x]);
      AddExisting(cr, w, rq, fr, b.entries[x]);
    } else {
      AddNew(cr, w, rq, fr);
      assert RowHolds(cr, w', x, b'.entries[x]) <==> KeyFor(rq, fr) !in w.store.pg;
      ShowsByRows(cr, w', b');
    }
  }

  lemma LockerDeleted(cr: Crypto, w: World, k: PartitionKey)
    requires Inv(cr, w) && k.Locker?
    ensures var w' := w.(store := DeleteLocker(w.store, k).0);
            && Inv(cr, w')
            && forall x, e :: RowHolds(cr, w', x, e) <==>
                 RowHolds(cr, w, x, e) && !Named(x, e, k.merchantId, k.customerId, k.lockerId)
  {
    hide Clash;
    var w' := w.(store := DeleteLocker(w.store, k).0);
    assert forall k' :: k' in w'.store.pg ==> k' in w.store.pg && w'.store.pg[k'] == w.store.pg[k'];
    assert forall k' :: k' in w.store.pg && k' != k && !k'.ReverseLookup? ==> k' in w'.store.pg;
    forall k' | k' in w'.store.pg && w'.store.pg[k'].LockerRow? ensures LockerHolds(cr, w', w'.store.pg[k']) {
      assert LockerHolds(cr, w, w.store.pg[k']);
    }
  }

  lemma DeleteRefines(cr: Crypto, w: World, b: Book, m: string, c: string, reference: string)
    requires Faithful(cr) && Inv(cr, w) && Shows(cr, w, b)
    ensures var w' := w.(store := DeleteLocker(w.store, Locker(m, c, reference)).0);
            Inv(cr, w') && Shows(cr, w', Without(b, m, c, reference))
  {
    hide Clash, RowHolds, LockerHolds, Held, Inv;
    var w' := w.(store := DeleteLocker(w.store, Locker(m, c, reference)).0);
    LockerDeleted(cr, w, Locker(m, c, reference));
    ShowsByRows(cr, w, b);
    ShowsByRows(cr, w', Without(b, m, c, reference));
  }

  // A reference names at most one card of a customer, the one its row holds.
  lemma RowByReference(cr: Crypto, w: World, b: Book, m: string, c: string, reference: string)
    requires Faithful(cr) && Inv(cr, w) && Shows(cr, w, b)
    ensures Locker(m, c, reference) in w.store.pg <==> exists x :: x in b.entries && Named(x, b.entries[x], m, c, reference)
    ensures forall x :: x in b.entries && Named(x, b.entries[x], m, c, reference) ==>
              var k := Locker(m, c, reference);
              && k in w.store.pg && w.store.pg[k].LockerRow? && m in w.keys && w.store.pg[k].ttl == b.entries[x].ttl
              && cr.open(w.keys[m], w.store.pg[k].encData) == Some(b.entries[x].data)
  {
    hide Clash, Held;
    ShowsByRows(cr, w, b);
    var k := Locker(m, c, reference);
    if k in w.store.pg {
      var row := w.store.pg[k];
      assert LockerHolds(cr, w, row);
      var d := cr.open(w.keys[m], row.encData).value;
      assert RowHolds(cr, w, Slot(m, c, StoredText(d)), Entry(reference, d, row.ttl));
    }
    forall x | x in b.entries && Named(x, b.entries[x], m, c, reference) ensures RowHolds(cr, w, x, b.entries[x]) {
    }
  }

  ghost predicate FreshFor(w: World, rq: Request, fr: Fresh) {
    rq.Add? ==> FreshHash(w, fr.hashId) && KeyFor(rq, fr) !in w.store.pg
  }

  lemma ServeRefines(cr: Crypto, w: World, b: Book, rq: Request, fr: Fresh)
    requires Faithful(cr) && Inv(cr, w) && Shows(cr, w, b) && FreshFor(w, rq, fr)
    ensures var (w', r) := Serve(cr, w, rq, fr);
            var (b', r') := PlainServe(b, rq, fr);
            r == r' && Inv(cr, w') && Shows(cr, w', b')
  {
    hide Clash, RowHolds, LockerHolds, AddCard, Violates, Held, ValidRequest, DeleteLocker;
    match rq
    case Add(_, _, _, _, _) => AddRefines(cr, w, b, rq, fr);
    case Remove(m, c, reference) => DeleteRefines(cr, w, b, m, c, reference);
    case Retrieve(m, c, reference) =>
      DeleteRefines(cr, w, b, m, c, reference);
      RowByReference(cr, w, b, m, c, reference);
  }

  // The tables hold the book.
  ghost predicate Holds(cr: Crypto, w: World, b: Book) {
    Faithful(cr) && Inv(cr, w) && Shows(cr, w, b)
  }

  // What a route promises: the book's reply, and tables that hold the book it leaves.
  lemma ServePromise(cr: Crypto, w: World, b: Book, rq: Request, fr: Fresh)
    requires Holds(cr, w, b) && FreshFor(w, rq, fr)
    ensures Serve(cr, w, rq, fr).1 == PlainServe(b, rq, fr).1
    ensures Holds(cr, Serve(cr, w, rq, fr).0, PlainServe(b, rq, fr).0)
  {
    hide Inv, Shows, Faithful, Serve, PlainServe, FreshFor;
    ServeRefines(cr, w, b, rq, fr);
  }

  // The slot is free, its hash row is there.
  ghost predicate CanSeal(cr: Crypto, w: World, rq: Request, hash: Row)
    requires rq.Add?
  {
    && Faithful(cr) && Inv(cr, w) && rq.merchant in w.keys
    && hash.HashRow? && hash.dataHash == cr.digest(Text(rq.data)) && Lookup(w.store.pg, KeyOf(hash)) == Some(hash)
    && Held(cr, w, SlotOf(rq)) == None
  }

  lemma SealPromise(cr: Crypto, w: World, rq: Request, fr: Fresh, hash: Row)
    requires rq.Add? && CanSeal(cr, w, rq, hash)
    ensures var (w', r) := SealAndInsert(cr, w, rq, fr, hash);
            && Inv(cr, w') && r == Added(ReferenceFor(rq, fr), None)
            && Held(cr, w', SlotOf(rq)) == if KeyFor(rq, fr) in w.store.pg then None else Some(EntryFor(rq, fr))
  {
    hide Clash, Violates, RowHolds, LockerHolds, Inv, SealAndInsert, Held;
    forall e ensures !RowHolds(cr, w, SlotOf(rq), e) { HeldIsRow(cr, w, SlotOf(rq), e); }
    SealAndInsertEffect(cr, w, rq, fr, hash);
    HeldIsRow(cr, SealAndInsert(cr, w, rq, fr, hash).0, SlotOf(rq), EntryFor(rq, fr));
  }

  // ----- whole runs -----

  ghost function ServeAll(cr: Crypto, w: World, run: seq<(Request, Fresh)>): (World, seq<Reply>)
    decreases run
  {
    if run == [] then (w, []) else
    var (w', r) := Serve(cr, w, run[0].0, run[0].1);
    var (w2, rs) := ServeAll(cr, w', run[1..]);
    (w2, [r] + rs)
  }

  ghost function PlainServeAll(b: Book, run: seq<(Request, Fresh)>): (Book, seq<Reply>)
    decreases run
  {
    if run == [] then (b, []) else
    var (b', r) := PlainServe(b, run[0].0, run[0].1);
    var (b2, rs) := PlainServeAll(b', run[1..]);
    (b2, [r] + rs)
  }

  // Every hash id and every reference offered to an add is unused when it is offered.
  ghost predicate FreshRun(cr: Crypto, w: World, run: seq<(Request, Fresh)>)
    decreases run
  {
    run == [] || (FreshFor(w, run[0].0, run[0].1) && FreshRun(cr, Serve(cr, w, run[0].0, run[0].1).0, run[1..]))
  }

  // Every reply of a run is the card book's reply.
  lemma {:induction false} RunShowsBook(cr: Crypto, w: World, b: Book, run: seq<(Request, Fresh)>)
    requires Faithful(cr) && Inv(cr, w) && Shows(cr, w, b) && FreshRun(cr, w, run)
    ensures ServeAll(cr, w, run).1 == PlainServeAll(b, run).1
    ensures Inv(cr, ServeAll(cr, w, run).0) && Shows(cr, ServeAll(cr, w, run).0, PlainServeAll(b, run).0)
    decreases run
  {
    hide Inv, Shows, Serve, PlainServe, FreshFor;
    if run != [] {
      ServeRefines(cr, w, b, run[0].0, run[0].1);
      RunShowsBook(cr, Serve(cr, w, run[0].0, run[0].1).0, PlainServe(b, run[0].0, run[0].1).0, run[1..]);
    }
  }

  lemma EmptyStart(cr: Crypto, shardOf: PartitionKey -> nat)
    ensures var w := World(State(Disabled, map[], map[], map[], shardOf), map[]);
            Inv(cr, w) && Shows(cr, w, Book(map[], {}))
  {
  }

  // ----- what the book promises -----

  // The request takes the card out, by deleting it or by finding it expired.
  predicate TakesOut(rq: Request, fr: Fresh, x: Slot, e: Entry) {
    || (rq.Remove? && Named(x, e, rq.merchant, rq.customer, rq.cardReference))
    || (rq.Retrieve? && Named(x, e, rq.merchant, rq.customer, rq.cardReference) && e.ttl.Some? && fr.now > e.ttl.value)
  }

  // At most one card per merchant, customer and text, and at most one per merchant, customer and reference.
  lemma OneCardPerText(cr: Crypto, w: World, x: Slot, e: Entry, x': Slot, e': Entry)
    requires Faithful(cr) && Inv(cr, w) && RowHolds(cr, w, x, e) && RowHolds(cr, w, x', e')
    requires x.merchant == x'.merchant && x.customer == x'.customer
    ensures x.text == x'.text <==> e.reference == e'.reference
    ensures x.text == x'.text <==> (x, e) == (x', e')
  {
    if x.text == x'.text {
      HeldIsRow(cr, w, x, e);
      HeldIsRow(cr, w, x, e');
    }
  }

  lemma EntryStandsStep(cr: Crypto, w: World, b: Book, rq: Request, fr: Fresh, x: Slot)
    requires Faithful(cr) && Inv(cr, w) && Shows(cr, w, b)
    requires x in b.entries && !TakesOut(rq, fr, x, b.entries[x])
    ensures var b' := PlainServe(b, rq, fr).0; x in b'.entries && b'.entries[x] == b.entries[x]
  {
    hide ValidRequest, Held, Inv, RowHolds;
    ShowsByRows(cr, w, b);
    forall y | y in b.entries && Named(y, b.entries[y], x.merchant, x.customer, b.entries[x].reference)
      ensures y == x
    {
      OneCardPerText(cr, w, x, b.entries[x], y, b.entries[y]);
    }
  }

  // A stored card keeps its reference, its data and its expiry until it is taken out.
  lemma {:induction false} EntryStands(cr: Crypto, w: World, b: Book, run: seq<(Request, Fresh)>, x: Slot)
    requires Faithful(cr) && Inv(cr, w) && Shows(cr, w, b) && FreshRun(cr, w, run) && x in b.entries
    requires forall i :: 0 <= i < |run| ==> !TakesOut(run[i].0, run[i].1, x, b.entries[x])
    ensures Held(cr, ServeAll(cr, w, run).0, x) == Some(b.entries[x])
    decreases run
  {
    hide Inv, Serve, PlainServe, FreshFor, TakesOut, Held;
    if run != [] {
      ServeRefines(cr, w, b, run[0].0, run[0].1);
      EntryStandsStep(cr, w, b, run[0].0, run[0].1, x);
      EntryStands(cr, Serve(cr, w, run[0].0, run[0].1).0, PlainServe(b, run[0].0, run[0].1).0, run[1..], x);
    }
  }

  // Between two adds of one text nothing takes the card out: the second add returns the first one's reference,
  // and reports a duplicate exactly when the data is what the first add stored.
  lemma SecondAddReturnsFirst(
      cr: Crypto, w: World, b: Book, first: (Request, Fresh), run: seq<(Request, Fresh)>, second: (Request, Fresh))
    requires Faithful(cr) && Inv(cr, w) && Shows(cr, w, b) && FreshRun(cr, w, [first] + run)
    requires first.0.Add? && second.0.Add? && SlotOf(first.0) == SlotOf(second.0)
    requires ValidRequest(first.0, first.1.now) && ValidRequest(second.0, second.1.now)
    requires var x := SlotOf(first.0); var b1 := PlainServe(b, first.0, first.1).0;
             x in b1.entries ==> forall i :: 0 <= i < |run| ==> !TakesOut(run[i].0, run[i].1, x, b1.entries[x])
    ensures var w1 := Serve(cr, w, first.0, first.1).0;
            var w2 := ServeAll(cr, w1, run).0;
            var r, r' := Serve(cr, w, first.0, first.1).1, Serve(cr, w2, second.0, second.1).1;
            && r.Added? && r'.Added? && r'.reference == r.reference && r'.check.Some?
            && (r.check.None? ==> (r'.check.value == Duplicated <==> second.0.data == first.0.data))
            && (r.check == Some(Duplicated) ==> (r'.check.value == Duplicated <==> second.0.data == first.0.data))
  {
    hide Inv, RowHolds, ValidRequest, FreshFor, AddCard, TakesOut;
    var w1, b1 := Serve(cr, w, first.0, first.1).0, PlainServe(b, first.0, first.1).0;
    var x := SlotOf(first.0);
    assert ([first] + run)[0] == first && ([first] + run)[1..] == run;
    ServeRefines(cr, w, b, first.0, first.1);
    EntryStands(cr, w1, b1, run, x);
    RunShowsBook(cr, w1, b1, run);
    var w2 := ServeAll(cr, w1, run).0;
    HeldIsRow(cr, w2, x, b1.entries[x]);
    AddExisting(cr, w2, second.0, second.1, b1.entries[x]);
  }

  // A reference already in use: the caller is told that the card was added, but the old card stays behind it.
  lemma ReusedReferenceLosesCard(cr: Crypto, w: World, b: Book, rq: Request, fr: Fresh, x: Slot, now: int)
    requires Faithful(cr) && Inv(cr, w) && Shows(cr, w, b) && rq.Add? && FreshHash(w, fr.hashId)
    requires ValidRequest(rq, fr.now) && SlotOf(rq) !in b.entries
    requires x in b.entries && Named(x, b.entries[x], rq.merchant, rq.customer, ReferenceFor(rq, fr))
    requires b.entries[x].ttl.Some? ==> now <= b.entries[x].ttl.value
    ensures var (w', r) := AddCard(cr, w, rq, fr);
            && r == Added(ReferenceFor(rq, fr), None)
            && Held(cr, w', SlotOf(rq)) == None
            && RetrieveCard(cr, w', Retrieve(rq.merchant, rq.customer, r.reference), now).1 == Retrieved(b.entries[x].data)
  {
    hide Clash, Held, ValidRequest, AddCard, Inv, LockerHolds;
    var (w', r) := AddCard(cr, w, rq, fr);
    ShowsByRows(cr, w, b);
    RowByReference(cr, w, b, rq.merchant, rq.customer, ReferenceFor(rq, fr));
    AddNew(cr, w, rq, fr);
    if Held(cr, w', SlotOf(rq)).Some? { HeldIsRow(cr, w', SlotOf(rq), Held(cr, w', SlotOf(rq)).value); }
    assert RowHolds(cr, w', x, b.entries[x]);
    HeldIsRow(cr, w', x, b.entries[x]);
    InvDisabled(cr, w');
  }

  // ----- what callers see, said outright -----

  predicate InvalidAdd(rq: Request, now: int)
    requires rq.Add?
  {
    || (rq.ttl.Some? && rq.ttl.value <= now)
    || (rq.data.CardData? && !ValidCardNumber(rq.data.card.number))
  }

  // An add is refused before anything is done exactly when its expiry is not in the future or its card number is
  // not one.
  lemma InvalidAdds(cr: Crypto, w: World, rq: Request, fr: Fresh)
    requires rq.Add?
    ensures AddCard(cr, w, rq, fr).1 == Failed(InvalidRequest) <==> InvalidAdd(rq, fr.now)
    ensures AddCard(cr, w, rq, fr).1 == Failed(InvalidRequest) ==> AddCard(cr, w, rq, fr).0 == w
  {
    hide FindByLookup, InsertOrGet, ValidCardNumber;
  }

  // A request that is valid, its text, what is kept of its data, and its reference: the caller's own if there is one,
  // the generated one otherwise.
  ghost predicate Brings(rq: Request, fr: Fresh, text: string, stored: StoredData, reference: string) {
    && rq.Add?
    && (rq.ttl.Some? ==> rq.ttl.value > fr.now)
    && (rq.data.CardData? ==> ValidCardNumber(rq.data.card.number))
    && text == (match rq.data case EncData(t) => t case CardData(card) => card.number)
    && stored == (match rq.data case EncData(t) => StoredEnc(t) case CardData(card) => StoredCard(card))
    && reference == (match rq.reference case Some(own) => own case None => fr.reference)
  }

  // The customer has not stored that text, and the reference is not in use.
  ghost predicate NewCard(
      cr: Crypto, w: World, rq: Request, fr: Fresh, text: string, stored: StoredData, reference: string) {
    && Brings(rq, fr, text, stored, reference)
    && FreshHash(w, fr.hashId) && Locker(rq.merchant, rq.customer, reference) !in w.store.pg
    && forall e :: !RowHolds(cr, w, Slot(rq.merchant, rq.customer, text), e)
  }

  // It is answered with that reference, and the row behind it holds the request: sealed under the merchant's key,
  // with its expiry, the time, and the hash id of the text, a new one if the text is new.
  lemma NewCardStored(
      cr: Crypto, w: World, rq: Request, fr: Fresh, text: string, stored: StoredData, reference: string)
    requires Faithful(cr) && Inv(cr, w) && NewCard(cr, w, rq, fr, text, stored, reference)
    ensures var (w', r) := AddCard(cr, w, rq, fr);
            var m, c, hk := rq.merchant, rq.customer, HashTable(cr.digest(text));
            && r == Added(reference, None)
            && Lookup(w'.keys, m) == Some(if m in w.keys then w.keys[m] else fr.key)
            && hk in w'.store.pg && w'.store.pg[hk].HashRow?
            && w'.store.pg[hk] == (if hk in w.store.pg then w.store.pg[hk]
                                   else HashRow(fr.hashId, cr.digest(text), fr.now, Some(PostgresOnly)))
            && Lookup(w'.store.pg, Locker(m, c, reference))
               == Some(LockerRow(reference, m, c, cr.seal(w'.keys[m], fr.nonce, stored), fr.now,
                                 w'.store.pg[hk].hashId, rq.ttl, Some(PostgresOnly)))
  {
    hide Clash, RowHolds, LockerHolds, ValidCardNumber;
    var hk := HashTable(cr.digest(Text(rq.data)));
    KeyAdded(cr, w, rq.merchant, fr.key);
    var w1 := ProvisionKey(w, rq.merchant, fr.key);
    if hk in w.store.pg {
      var hash := w.store.pg[hk];
      var found := PgFindByColumns(w1.store, hash.hashId, rq.merchant, rq.customer);
      if found.Ok? {
        var k :| k in w1.store.pg && HasColumns(w1.store.pg[k], hash.hashId, rq.merchant, rq.customer);
        NoLockerInSlot(cr, w1, SlotOf(rq), k);
      }
      SealStores(cr, w1, rq, fr, hash);
    } else {
      var row := HashFor(cr, rq, fr);
      HashAdded(cr, w1, row);
      SealStores(cr, w1.(store := w1.store.(pg := w1.store.pg[KeyOf(row) := row])), rq, fr, row);
    }
  }

  lemma SealStores(cr: Crypto, w: World, rq: Request, fr: Fresh, hash: Row)
    requires Faithful(cr) && Inv(cr, w) && rq.Add? && rq.merchant in w.keys && hash.HashRow?
    requires hash.dataHash == cr.digest(Text(rq.data)) && Lookup(w.store.pg, KeyOf(hash)) == Some(hash)
    requires KeyFor(rq, fr) !in w.store.pg && forall e :: !RowHolds(cr, w, SlotOf(rq), e)
    ensures var row := LockerFor(cr, w, rq, fr, hash.hashId);
            SealAndInsert(cr, w, rq, fr, hash)
            == (w.(store := w.store.(pg := w.store.pg[KeyFor(rq, fr) := row])), Added(ReferenceFor(rq, fr), None))
  {
    hide RowHolds, LockerHolds;
    var row := LockerFor(cr, w, rq, fr, hash.hashId);
    forall k' | k' in w.store.pg ensures !Clash(w.store.pg[k'], row) {
      if HasColumns(w.store.pg[k'], hash.hashId, rq.merchant, rq.customer) { NoLockerInSlot(cr, w, SlotOf(rq), k'); }
    }
    assert !Violates(w.store.pg, row);
  }

  // And it is there for whoever asks for that reference, until it expires.
  lemma NewCardRetrieved(
      cr: Crypto, w: World, rq: Request, fr: Fresh, text: string, stored: StoredData, reference: string, now: int)
    requires Faithful(cr) && Inv(cr, w) && NewCard(cr, w, rq, fr, text, stored, reference)
    ensures var w' := AddCard(cr, w, rq, fr).0;
            var (w2, r) := RetrieveCard(cr, w', Retrieve(rq.merchant, rq.customer, reference), now);
            if rq.ttl.Some? && now > rq.ttl.value
            then r == Failed(NotFoundError) && Locker(rq.merchant, rq.customer, reference) !in w2.store.pg
            else r == Retrieved(stored) && w2 == w'
  {
    hide AddCard, LockerHolds, RowHolds, Clash, ValidCardNumber;
    NewCardStored(cr, w, rq, fr, text, stored, reference);
    AddKeepsDisabled(cr, w, rq, fr);
  }

  // A new card is answered with its reference, and asking for that reference gives back its data until it expires.
  ghost predicate NewCardAnswered(cr: Crypto, w: World, rq: Request, fr: Fresh, w': World, r: Reply)
    requires rq.Add?
  {
    forall text, stored, reference ::
      Faithful(cr) && Inv(cr, w) && NewCard(cr, w, rq, fr, text, stored, reference) ==>
        r == Added(reference, None) && Retrievable(cr, w', rq, stored, reference)
  }

  ghost predicate Retrievable(cr: Crypto, w: World, rq: Request, stored: StoredData, reference: string)
    requires rq.Add?
  {
    forall now ::
      RetrieveCard(cr, w, Retrieve(rq.merchant, rq.customer, reference), now).1
      == if rq.ttl.Some? && now > rq.ttl.value then Failed(NotFoundError) else Retrieved(stored)
  }

  lemma NewCardPromise(cr: Crypto, w: World, rq: Request, fr: Fresh)
    requires rq.Add?
    ensures NewCardAnswered(cr, w, rq, fr, AddCard(cr, w, rq, fr).0, AddCard(cr, w, rq, fr).1)
  {
    hide Faithful, Inv, NewCard, AddCard, RetrieveCard;
    var (w', r) := AddCard(cr, w, rq, fr);
    forall text, stored, reference | Faithful(cr) && Inv(cr, w) && NewCard(cr, w, rq, fr, text, stored, reference)
      ensures r == Added(reference, None) && Retrievable(cr, w', rq, stored, reference)
    {
      NewCardStored(cr, w, rq, fr, text, stored, reference);
      forall now { NewCardRetrieved(cr, w, rq, fr, text, stored, reference, now); }
    }
  }

  lemma AddKeepsDisabled(cr: Crypto, w: World, rq: Request, fr: Fresh)
    requires rq.Add? && w.store.mode.Disabled?
    ensures AddCard(cr, w, rq, fr).0.store.mode.Disabled?
  {
    hide ValidRequest, Violates, FindByLookup;
  }

  // Why a deletion answers as it does: a merchant without a key is not found, anything else is done.
  lemma RemoveReplies(w: World, rq: Request)
    requires rq.Remove?
    ensures RemoveCard(w, rq).1 == Removed <==> rq.merchant in w.keys
    ensures RemoveCard(w, rq).1 == Failed(NotFoundError) <==> rq.merchant !in w.keys
    ensures rq.merchant !in w.keys ==> RemoveCard(w, rq).0 == w
  {
    hide DeleteLocker;
  }

  // The row behind a reference, and what it opens to.
  ghost predicate Behind(cr: Crypto, w: World, rq: Request, row: Row, d: Option<StoredData>)
    requires rq.Retrieve?
  {
    && rq.merchant in w.keys && FindById(w.store, Locker(rq.merchant, rq.customer, rq.cardReference)) == Ok(row)
    && row.LockerRow? && cr.open(w.keys[rq.merchant], row.encData) == d
  }

  predicate Over(row: Row, now: int) {
    row.LockerRow? && row.ttl.Some? && now > row.ttl.value
  }

  // Why a retrieval does: the merchant has no key, there is no row, or the card has expired; the row does not open
  // under the merchant's key; or here is the data.
  lemma RetrieveReplies(cr: Crypto, w: World, rq: Request, now: int)
    requires rq.Retrieve?
    ensures var r := RetrieveCard(cr, w, rq, now).1;
            && (r == Failed(NotFoundError) <==>
                || rq.merchant !in w.keys
                || FindById(w.store, Locker(rq.merchant, rq.customer, rq.cardReference)) == Err(NotFound)
                || (exists row, d :: Behind(cr, w, rq, row, d) && d.Some? && Over(row, now)))
            && (r == Failed(DecodingError) <==> exists row :: Behind(cr, w, rq, row, None))
            && (r.Retrieved? <==> exists row, d :: Behind(cr, w, rq, row, d) && d.Some? && !Over(row, now))
            && (forall row, d :: r.Retrieved? && Behind(cr, w, rq, row, d) ==> d == Some(r.data))
            && !r.Added? && !r.Removed? && r != Failed(InvalidRequest)
  {
    hide DeleteLocker, FindById;
    var found := FindById(w.store, Locker(rq.merchant, rq.customer, rq.cardReference));
    if rq.merchant in w.keys && found.Ok? && found.value.LockerRow? {
      assert Behind(cr, w, rq, found.value, cr.open(w.keys[rq.merchant], found.value.encData));
    }
  }

  // A text that is stored already is answered from its locker, or, when that does not open, not at all.
  lemma KnownReplies(cr: Crypto, w: World, rq: Request, fr: Fresh, hash: Row, row: Row)
    requires rq.Add? && !InvalidAdd(rq, fr.now) && hash.HashRow? && row.LockerRow?
    requires FindById(w.store, HashTable(cr.digest(Text(rq.data)))) == Ok(hash)
    requires FindByLookup(w.store, hash.hashId, rq.merchant, rq.customer) == Ok(row)
    ensures var d := cr.open(if rq.merchant in w.keys then w.keys[rq.merchant] else fr.key, row.encData);
            AddCard(cr, w, rq, fr).1
            == if d.None? then Failed(DecodingError)
               else Added(row.lockerId, Some(if Same(d.value, rq.data) then Duplicated else MetaDataChanged))
  {
    hide FindById, FindByLookup, ValidCardNumber;
  }

  // The same kind of data, and all of it equal.
  predicate Same(stored: StoredData, d: Data) {
    stored == match d case EncData(text) => StoredEnc(text) case CardData(card) => StoredCard(card)
  }

  // The insert of a card fails, as not found, exactly when its columns are taken and its reference is not.
  lemma SealReply(cr: Crypto, w: World, rq: Request, fr: Fresh, hash: Row)
    requires rq.Add? && rq.merchant in w.keys && hash.HashRow? && w.store.mode.Disabled?
    requires forall k :: k in w.store.pg ==> KeyOf(w.store.pg[k]) == k
    ensures var r := SealAndInsert(cr, w, rq, fr, hash).1;
            var reference := match rq.reference case Some(own) => own case None => fr.reference;
            r == if Locker(rq.merchant, rq.customer, reference) !in w.store.pg
                    && exists k :: k in w.store.pg && HasColumns(w.store.pg[k], hash.hashId, rq.merchant, rq.customer)
                 then Failed(NotFoundError) else Added(reference, None)
  {
    var row := LockerFor(cr, w, rq, fr, hash.hashId);
    forall k | k in w.store.pg
      ensures Clash(w.store.pg[k], row) <==> HasColumns(w.store.pg[k], hash.hashId, rq.merchant, rq.customer)
    {
    }
    LoserFindsNothing(w.store, row);
    assert Stamp(row, PostgresOnly) == row;
  }

  // An add that finds its columns taken, as the loser of two concurrent adds of one card does, re-reads by its own
  // reference. It is told that there is no such card exactly when its columns are taken and its reference is not.
  lemma LoserFindsNothing(s: State, new_: Row)
    requires s.mode.Disabled? && new_.LockerRow?
    ensures InsertOrGet(s, new_).1 == Err(NotFound) <==> KeyOf(new_) !in s.pg && Violates(s.pg, new_)
    ensures InsertOrGet(s, new_).1.Err? ==> InsertOrGet(s, new_) == (s, Err(NotFound))
  {
    assert forall b :: Clash(b, Stamp(new_, PostgresOnly)) == Clash(b, new_);
    assert Violates(s.pg, Stamp(new_, PostgresOnly)) == Violates(s.pg, new_);
  }

  lemma InvDisabled(cr: Crypto, w: World)
    requires Inv(cr, w)
    ensures w.store.mode == Disabled && forall k :: k in w.store.pg ==> KeyOf(w.store.pg[k]) == k
  {
  }
}

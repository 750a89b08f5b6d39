/** The card routes as they run against one tenant's store. */
module CardRoutes {
  import opened Wrappers
  import opened Keys
  import opened Rows
  import opened KvStore
  import opened KvResource
  import opened CardDedup
  import opened CardRuns

  class TenantApp {
    const db: Storage
    const crypto: Crypto
    var keys: map<string, Key>

    function View(): World
      reads this, db
    {
      World(db.View(), keys)
    }

    constructor (db: Storage, crypto: Crypto)
      ensures this.db == db && this.crypto == crypto && View() == World(db.View(), map[])
    {
      this.db := db;
      this.crypto := crypto;
      this.keys := map[];
    }

    method FindOrCreateKey(m: string, fresh_: Key)
      modifies this
      ensures View() == ProvisionKey(old(View()), m, fresh_)
    {
      if m !in keys { keys := keys[m := fresh_]; }
    }

    method InsertHash(new_: Row) returns (r: Result<Row>)
      requires !new_.LockerRow?
      modifies db
      ensures var (s, r') := InsertOrGet(old(View()).store, new_);
              (View(), r) == (old(View()).(store := s), r')
    {
      r := db.InsertRow(new_);
      if r == Err(Duplicate) { r := db.Find(KeyOf(new_)); }
    }

    // A card whose slot is free is stored in it under its reference; under a reference in use the answer is the
    // same, and nothing is stored.
    method EncryptAndInsert(rq: Request, fr: Fresh, hash: Row) returns (reply: CardDedup.Reply)
      requires rq.Add? && rq.merchant in keys
      modifies db
      ensures (View(), reply) == SealAndInsert(crypto, old(View()), rq, fr, hash)
      ensures old(CanSeal(crypto, View(), rq, hash)) ==>
                && Inv(crypto, View()) && reply == Added(ReferenceFor(rq, fr), None)
                && Held(crypto, View(), SlotOf(rq)) == if KeyFor(rq, fr) in old(db.pg) then None else Some(EntryFor(rq, fr))
    {
      hide LockerHolds, Inv, Held, CanSeal;
      if CanSeal(crypto, View(), rq, hash) { SealPromise(crypto, View(), rq, fr, hash); }
      if !hash.HashRow? { return Failed(StorageError); }
      var sealed := crypto.seal(keys[rq.merchant], fr.nonce, Store(rq.data));
      var new_ := LockerRow(ReferenceFor(rq, fr), rq.merchant, rq.customer, sealed, fr.now, hash.hashId, rq.ttl,
                            Some(PostgresOnly));
      var r := db.AddLocker(iset{}, new_);
      if r == Err(Duplicate) { r := db.Find(KeyOf(new_)); }
      reply := if r.Ok? && r.value.LockerRow? then Added(r.value.lockerId, None)
               else Failed(if r == Err(NotFound) then NotFoundError else StorageError);
    }

    // Where the tables hold the card book `b`, and the request brings a fresh hash id and reference, the reply is
    // the book's, and the tables hold the book it leaves. With the KV path in use, the same of the truths.
    method AddCard(ghost b: Book, ghost used: iset<PartitionKey>, rq: Request, fr: Fresh) returns (reply: CardDedup.Reply)
      requires rq.Add? && UniqueLockers(db.pg)
      modifies this, db
      ensures (View(), reply) == CardDedup.AddCard(crypto, old(View()), rq, fr)
      ensures NewCardAnswered(crypto, old(View()), rq, fr, View(), reply)
      ensures reply == Failed(InvalidRequest) <==> InvalidAdd(rq, fr.now)
      ensures old(Holds(crypto, View(), b)) && old(FreshFor(View(), rq, fr)) ==>
                reply == PlainServe(b, rq, fr).1 && Holds(crypto, View(), PlainServe(b, rq, fr).0)
      ensures old(HoldsBook(crypto, View(), used, b) && EventPermitted(crypto, View(), used, Served(rq, fr))) ==>
                reply == PlainServe(b, rq, fr).1 && HoldsBook(crypto, View(), used, PlainServe(b, rq, fr).0)
    {
      hide ValidRequest, PgFindByColumns, InsertOrGet, SealAndInsert, Holds, PlainServe, FreshFor, HoldsBook, EventPermitted,
           NewCardAnswered, InvalidAdd;
      if HoldsBook(crypto, View(), used, b) && EventPermitted(crypto, View(), used, Served(rq, fr)) {
        RoutePromise(crypto, View(), used, b, rq, fr);
      }
      InvalidAdds(crypto, View(), rq, fr);
      NewCardPromise(crypto, View(), rq, fr);
      if Holds(crypto, View(), b) && FreshFor(View(), rq, fr) { ServePromise(crypto, View(), b, rq, fr); }
      if !ValidRequest(rq, fr.now) { return Failed(InvalidRequest); }
      var found := db.Find(HashTable(crypto.digest(Text(rq.data))));
      FindOrCreateKey(rq.merchant, fr.key);
      if found.Ok? && found.value.HashRow? {
        var locker := db.FindLocker(iset{}, found.value.hashId, rq.merchant, rq.customer);
        if locker.Ok? && locker.value.LockerRow? {
          var d := crypto.open(keys[rq.merchant], locker.value.encData);
          reply := if d.Some? then Added(locker.value.lockerId, Some(Duplication(d.value, rq.data)))
                   else Failed(DecodingError);
        } else if locker == Err(NotFound) {
          reply := EncryptAndInsert(rq, fr, found.value);
        } else {
          reply := Failed(StorageError);
        }
      } else if found == Err(NotFound) {
        var hash := InsertHash(HashFor(crypto, rq, fr));
        if hash.Ok? { reply := EncryptAndInsert(rq, fr, hash.value); } else { reply := Failed(StorageError); }
      } else {
        reply := Failed(StorageError);
      }
    }

    // The card of that reference leaves the book; a merchant without a key is not found.
    method DeleteCard(ghost b: Book, ghost used: iset<PartitionKey>, rq: Request, ghost fr: Fresh)
      returns (reply: CardDedup.Reply)
      requires rq.Remove?
      modifies db
      ensures (View(), reply) == RemoveCard(old(View()), rq)
      ensures reply == if rq.merchant in keys then Removed else Failed(NotFoundError)
      ensures old(Holds(crypto, View(), b)) ==>
                reply == PlainServe(b, rq, fr).1 && Holds(crypto, View(), PlainServe(b, rq, fr).0)
      ensures old(HoldsBook(crypto, View(), used, b) && EventPermitted(crypto, View(), used, Served(rq, fr))) ==>
                reply == PlainServe(b, rq, fr).1 && HoldsBook(crypto, View(), used, PlainServe(b, rq, fr).0)
    {
      hide Holds, PlainServe, DeleteLocker, HoldsBook, EventPermitted;
      if HoldsBook(crypto, View(), used, b) && EventPermitted(crypto, View(), used, Served(rq, fr)) {
        RoutePromise(crypto, View(), used, b, rq, fr);
      }
      if Holds(crypto, View(), b) { ServePromise(crypto, View(), b, rq, fr); }
      if rq.merchant !in keys { return Failed(NotFoundError); }
      var _ := db.RemoveLocker(iset{}, Locker(rq.merchant, rq.customer, rq.cardReference));
      reply := Removed;
    }

    // The data of the card with that reference, unless it has expired: then it leaves the book.
    method RetrieveCard(ghost b: Book, ghost used: iset<PartitionKey>, rq: Request, fr: Fresh)
      returns (reply: CardDedup.Reply)
      requires rq.Retrieve?
      modifies db
      ensures (View(), reply) == CardDedup.RetrieveCard(crypto, old(View()), rq, fr.now)
      ensures reply == Failed(NotFoundError) <==>
                || rq.merchant !in keys
                || old(FindById(db.View(), Locker(rq.merchant, rq.customer, rq.cardReference))) == Err(NotFound)
                || old(exists row, d :: Behind(crypto, View(), rq, row, d) && d.Some? && Over(row, fr.now))
      ensures reply == Failed(DecodingError) <==> old(exists row :: Behind(crypto, View(), rq, row, None))
      ensures old(Holds(crypto, View(), b)) ==>
                reply == PlainServe(b, rq, fr).1 && Holds(crypto, View(), PlainServe(b, rq, fr).0)
      ensures old(HoldsBook(crypto, View(), used, b) && EventPermitted(crypto, View(), used, Served(rq, fr))) ==>
                reply == PlainServe(b, rq, fr).1 && HoldsBook(crypto, View(), used, PlainServe(b, rq, fr).0)
    {
      hide Holds, PlainServe, DeleteLocker, HoldsBook, EventPermitted, Behind;
      RetrieveReplies(crypto, View(), rq, fr.now);
      if HoldsBook(crypto, View(), used, b) && EventPermitted(crypto, View(), used, Served(rq, fr)) {
        RoutePromise(crypto, View(), used, b, rq, fr);
      }
      if Holds(crypto, View(), b) { ServePromise(crypto, View(), b, rq, fr); }
      if rq.merchant !in keys { return Failed(NotFoundError); }
      var k := Locker(rq.merchant, rq.customer, rq.cardReference);
      var locker := db.Find(k);
      if locker == Err(NotFound) { return Failed(NotFoundError); }
      if locker.Err? || !locker.value.LockerRow? { return Failed(StorageError); }
      var d := crypto.open(keys[rq.merchant], locker.value.encData);
      if d.None? { return Failed(DecodingError); }
      if locker.value.ttl.Some? && fr.now > locker.value.ttl.value {
        var _ := db.RemoveLocker(iset{}, k);
        return Failed(NotFoundError);
      }
      reply := Retrieved(d.value);
    }
  }
}

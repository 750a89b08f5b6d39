# Card vault: a verified model

This project models the storage core of the card vault and proves what its callers rely on.

The core is a write-through key-value store. Rows live in Redis under a printed key; every Redis write also appends
an entry to one of several drainer streams, which are replayed into Postgres later; reads try Redis and fall back to
Postgres; a tri-state switch (Disabled, Enabled, SoftKill) reroutes every operation. `KvStore` gives each operation as
a function on the three stores, `KvResource.Storage` runs the operations as methods on mutable state and is proved
equal to those functions, and the other modules prove properties of the functions.

The central notion is the *truth* of a key: the row Postgres will hold once every entry already written is replayed.
`Refinement` compares each operation with a plain table of truths and gives the exact condition under which they agree;
`Runs` lifts this to whole runs with replay, expiry and mode changes; `Replay` shows that the order in which shards are
drained does not matter, unique indexes included, as long as no two rows compete for an index entry (`Indexes`), and
`Races` and `Readding` decide which row survives when two do; `ReverseLookups` covers lockers found through the
hand-kept `reverse_lookup` table; `GetOrInsert` interleaves any number of "find, insert, on duplicate find again" calls
one store command at a time, and `Validity` says whose rows those calls return; `Provenance` reads the `updated_by` column; `Witnesses` shows inputs outside the
conditions.

Runs are judged over a set `keys` of keys in use, of which no two print to the same Redis key. Names may hold
underscores: what matters is that no two keys *in use* coincide, and `Keys` says exactly which keys can.

Around the core: `Keys` (printed keys and hex), `Cache` (the in-process cache over the store), `CardDedup`,
`CardRuns` and `CardRoutes` (the add, delete and retrieve routes as a deduplicating card book: with KV disabled, in every
mode with replay, expiry and mode changes between the requests, and as methods), `MerchantKeys` (concurrent creation of
merchant keys), `Custodian` (unlocking a tenant with two key halves), `Aes` (nonce sequence and sealed messages),
`Validations` (card numbers), `Jose` (compact JWS and JWE strings), `KeyMigration` (moving keys to the key manager).

Assumptions, all explicit as parameters or preconditions: the CRC behind the shard number, digests, ciphers, signatures
and JSON coding are function-valued parameters with the inverse or injectivity laws stated where they are used; fresh
ids, clock readings and random bytes are arguments; expiry is a step that may happen once a key's entries are replayed
(src/storage/kv/scheme.rs:3-4); the drainer replays each shard in order, where an insert that a unique index
refuses and an update or delete of an absent row change nothing.

## What the code does not do

Each of these is a theorem with an exact condition, or a lemma with the input.

- A find, or an update, goes wrong exactly while a deletion of a row stored in Postgres waits to be replayed
  (`Refinement.FindRefines`, `Refinement.UpdateRefines`, `Witnesses.FindAfterDelete`).
- An Enabled insert looks at Redis alone: over a row Redis has forgotten it is acknowledged and lost
  (`Refinement.InsertRefines`, `Witnesses.InsertOverStored`).
- An overwrite without an expiry clears the expiry in Redis and keeps it in Postgres, because the changeset skips an
  absent field (`Rows.MergeAgreesExactly`, `Witnesses.ExpiryDisagrees`).
- The number of deleted rows reported on the Redis path counts the Redis row only (`Refinement.DeleteRefines`).
- A change made while Disabled leaves a live Redis row stale, and leaving Disabled then changes answers; exactly when,
  `Runs.DisabledChanges` and `Runs.LeavingDisabled` say (`Witnesses.StaleAfterDisabled`).
- Two updates of one key can reach Redis and the stream in opposite orders; `Witnesses.UpdatesCross` says exactly when
  Redis and Postgres then differ for good.
- A second Enabled insert of a locker with the same lookup id is reported as a backend error, not as a duplicate, so the
  caller's re-read does not happen (`ReverseLookups.AddReply`).
- Two (merchant, customer, hash) triples can share a lookup id when names hold underscores. A search for one then returns
  the card of the other, another merchant's perhaps (`ReverseLookups.TwinColumns`, `ReverseLookups.SeparatorMoves`); a
  search is right exactly when the lookup does not lead to a live row with other columns
  (`ReverseLookups.FindByLookupRight`).
- A locker id used again with another hash leaves a lookup that leads to the wrong row (`ReverseLookups.ReusedIdMisleads`).
- A card added again before its deletion is replayed survives exactly when the old DELETE is served first
  (`Readding.ReaddBeforeReplay`); of two hash rows with one hash id exactly the one served first survives
  (`Readding.HashIdTwice`).
- A new card sent with a reference in use is answered as added, and not stored (`CardDedup.ReusedReferenceLosesCard`).
- The loser of two concurrent adds of one card is told that there is no such card, because it re-reads by its own
  reference (`CardDedup.LoserFindsNothing`, `CardDedup.SealReply`).
- A merchant key may be reported missing to a caller that lost the creation race and re-reads a lagging replica
  (`MerchantKeys.LoserMisses`, and exactly when: `MerchantKeys.MissMeansLag`).
- A message that is not UTF-8 can be JOSE-encrypted and never decrypted (`Jose.DecryptEncryptJose`,
  `Jose.BinaryMessageIsLost`).

## Model

| member | source | states |
|---|---|---|
| Replay.CompleteReplay | src/storage/kv/partition_key.rs:54-62 | Whatever order the shards are served in, a complete replay leaves every key with its truth: its row and its own entries, in the order written. |
| Replay.ReplayConfluence | src/storage/kv/partition_key.rs:54-62 | Two complete replays of the same streams, shards interleaved in any way, end in the same Postgres table. |
| Replay.IndexesInvisible | src/storage/kv/impls/locker.rs:139-168 | When no two rows, stored or pending, compete for a secondary unique index entry, replay under those indexes equals replay by primary key. |
| Replay.IndexedConfluence | src/storage/kv/partition_key.rs:54-62 | Under that condition any two complete replays end in the same Postgres table, unique indexes included, and it is the table of truths. |
| Indexes.InsertSafeExactly | src/storage/kv/resource.rs:343-362 | An Enabled insert keeps that condition if and only if it is refused or no other row or entry has its index entries. |
| Indexes.DirectInsert | src/storage/kv/impls/locker.rs:145-168 | A direct insert refuses exactly a primary key, locker columns or hash id that is taken, stores the row as it came otherwise, and keeps the unique indexes, whatever it is asked to insert. |
| Races.DeleteRace | src/storage/kv/wrapper.rs:206-214 | A row to be deleted and its successor on a unique index: the successor survives a complete replay if and only if the deletion is served first; the old row is gone either way. |
| Races.InsertRace | src/storage/kv/wrapper.rs:181-196 | Two rows waiting for one index entry: the one served first survives, and only that one. |
| Races.SameShardInOrder | src/storage/kv/partition_key.rs:54-62 | Entries of one shard are served in the order written. |
| Refinement.InsertRefines | src/storage/kv/resource.rs:304-365 | In every mode an insert acts on the truth as on a plain table if and only if its guard holds (Enabled: the key is in Redis or nowhere; otherwise: a duplicate is a real row and nothing is pending); the key stays sound. |
| Refinement.UpdateRefines | src/storage/kv/resource.rs:560-605 | An update answers and acts as on a plain table if and only if the key is outside the delete window and, on the Redis path, both merges agree. |
| Refinement.DeleteRefines | src/storage/kv/resource.rs:608-641 | A delete empties the truth in every mode and case; its row count is right if and only if the row is where the chosen backend looks. |
| Refinement.FindRefines | src/storage/kv/resource.rs:408-456 | On a sound key a find returns the truth if and only if the key is outside the delete window. |
| Rows.MergeAgreesExactly | src/storage/storage_v2/types.rs:47-96 | The Redis merge and the SQL changeset give the same row if and only if the update sets an expiry or the row has none. |
| Runs.StepTruth | src/storage/kv/resource.rs:304-641 | Every step of a run changes only the truth of its own key, as a plain table would; replay, expiry and mode changes change none; every key stays sound. Names are unrestricted: no two keys in use print alike. |
| Runs.RunRefines | src/storage/kv/resource.rs:304-641 | Every allowed run of finds, inserts, updates, deletes, replays, expiries and mode changes gives the replies of a plain table, and ends with truths equal to that table. |
| Runs.DrainedRunIsPlain | src/storage/kv/wrapper.rs:250-302 | However the streams such a run leaves are drained, under all unique indexes, Postgres ends up holding exactly the plain table's rows. |
| Runs.SoftKillAddsNothing | src/storage/kv/resource.rs:244-302 | No run in SoftKill adds a key to Redis. |
| Runs.HandOver | src/storage/kv/resource.rs:235-302 | With empty streams, switching from SoftKill to Disabled changes no find result and keeps every key sound. |
| Runs.LeavingDisabled | src/storage/kv/resource.rs:235-242 | Leaving Disabled changes no find result if and only if no live Redis row differs from its Postgres row. |
| Runs.DisabledChanges | src/storage/kv/resource.rs:253-265 | While Disabled an update ends that condition if and only if the key is live in Redis and the row changes; a delete, if and only if the key is live. |
| Provenance.MarksTellOrigin | src/storage/kv/resource.rs:314-321 | Over every run, guarded or not, `updated_by` of a Postgres row is RedisKv exactly if replay changed it last, and PostgresOnly exactly if a direct statement did. |
| Witnesses.FindAfterDelete | src/storage/kv/resource.rs:431-436 | A deleted row is found again through the Postgres fallback before its DELETE is replayed. |
| Witnesses.InsertOverStored | src/storage/kv/resource.rs:343-362 | An Enabled insert over a row that only Postgres holds is acknowledged, and the old row wins at replay. |
| Witnesses.ExpiryDisagrees | src/storage/storage_v2/types.rs:80-95 | An overwrite without an expiry leaves Redis and Postgres with different expiries. |
| Witnesses.StaleAfterDisabled | src/storage/kv/resource.rs:264 | An update made while Disabled is hidden by the old Redis row once KV is enabled again. |
| Witnesses.UpdatesCross | src/storage/kv/wrapper.rs:168-179 | Two updates that interleave between Redis write and push leave Redis equal to the truth if and only if data, mark and resulting expiry of the two agree; for any vault key with a live row. |
| KvResource.Storage.PushToDrainerStream | src/storage/kv/wrapper.rs:250-302 | The entry waits behind all earlier entries of its key; no other key sees it. |
| KvResource.Storage.HSetNx | src/storage/kv/wrapper.rs:181-196 | Sets the field and appends the INSERT exactly when the field was absent; otherwise changes nothing. |
| KvResource.Storage.Find | src/storage/kv/resource.rs:408-456 | On a sound key the answer is the truth if and only if the key is outside the delete window. |
| KvResource.Storage.InsertRow | src/storage/kv/resource.rs:304-365 | On a sound key the row goes in or is refused as on a plain table if and only if the guard holds; it is refused exactly when the Redis key, or in Postgres the key, the locker columns or the hash id is taken, and otherwise stored as it came, marked for the mode; no other key sees anything. |
| KvResource.Storage.Update | src/storage/kv/resource.rs:560-605 | Where the guard holds the row gets the new data, the new expiry if there is one, and the mark of where it went, and keeps everything else; exactly there it does as a plain table; no other key sees anything. |
| KvResource.Storage.DeleteRow | src/storage/kv/resource.rs:608-641 | A sound key has no row afterwards; the count is of the rows where the delete went, and right if and only if its guard holds; no other key sees anything. |
| KvResource.Storage.AddLocker | src/storage/kv/resource.rs:323-341 | The locker goes in if and only if it is not refused, every locker stays findable, and a refusal changes nothing. |
| KvResource.Storage.FindLocker | src/storage/kv/resource.rs:475-542 | The answer is the locker with these columns, or NotFound when there is none, if and only if the lookup is not misleading. |
| KvResource.Storage.RemoveLocker | src/storage/kv/resource.rs:655-682 | Neither the locker nor its lookup is left, every other locker stays findable, and the count is of the lockers where the delete went, right if and only if its guard holds. |
| KvResource.Storage.FindOrInsert | src/domain/fingerprint.rs:24-91 | From a sound state the result is always Ok, is the row the key had, or the caller's own if there was none, and is the row the key ends up with. |
| KvResource.Storage.InsertOrFind | src/domain/hash.rs:14-61 | Insert first, find on a duplicate: the same promise, where the insert's guard holds (hash rows and vault rows). |
| KvResource.Storage.Upsert | src/domain/vault.rs:60-108 | A key without a row gets the caller's; one with a row keeps its entity, id and creation time, gets the caller's data, and the caller's expiry if there is one. |
| ReverseLookups.FindByLookupRight | src/storage/kv/resource.rs:475-542 | With no undrained delete, a search by hash, merchant and customer returns the locker with those columns or NotFound when there is none, whichever mode added it and whichever Redis keys have expired, if and only if the lookup does not lead to a live row with other columns. |
| ReverseLookups.ColumnsApart | src/storage/kv/impls/locker.rs:62-73 | When the lockers with this lookup id have these columns, no search is misled; names without underscores are a case of it. |
| ReverseLookups.LockerRunInv | src/storage/kv/resource.rs:323-341 | Every run of additions, refused or with fresh ids and free columns, removals, replays, expiries and mode changes keeps every lookup leading to a locker with its id, and every locker reachable. |
| ReverseLookups.SearchAfterRun | src/storage/db.rs:219-235 | After every such run a search is right if and only if it is not misled. |
| ReverseLookups.RemoveIsComplete | src/storage/kv/resource.rs:655-682 | After a removal neither locker nor lookup is in Redis, nor in Postgres once the streams are drained under all indexes. |
| ReverseLookups.UnsharedSpares | src/storage/kv/resource.rs:663-679 | Where no other locker shares the lookup id, a removal takes nobody else's lookup. |
| ReverseLookups.LookupIdInjective | src/storage/kv/impls/locker.rs:62-73 | Lookup ids of different (merchant, customer, hash) differ when merchant and customer hold no underscore. |
| ReverseLookups.StartLockers | src/storage/kv/scheme.rs:8-14 | The invariant holds of any consistent database from which KV is started with empty Redis and streams. |
| Readding.ReaddBeforeReplay | src/storage/kv/resource.rs:655-682 | A card removed and added again under a new id before replay: the new row survives if and only if the old DELETE is served before the new INSERT, so always when both keys share a shard. |
| Readding.HashIdTwice | src/storage/db.rs:367-390 | Two hash rows with one hash id: both inserts are acknowledged, and exactly the one served first reaches Postgres. |
| ReverseLookups.AddReply | src/storage/kv/resource.rs:323-362 | The reply to an addition from what can be looked up before: a backend error if and only if the lookup is in Redis, a duplicate if and only if only the locker is (Enabled), or if and only if Postgres refuses the row (otherwise). |
| ReverseLookups.LookupWritten | src/storage/kv/resource.rs:324-333 | The lookup row an addition leaves in Redis, column by column, with the printed ids. |
| ReverseLookups.TwinColumns | src/storage/kv/impls/locker.rs:62-73 | After adding one of two column triples with the same lookup id, a search for either returns it, and is misled if and only if the columns differ. |
| ReverseLookups.SeparatorMoves | src/storage/kv/impls/locker.rs:62-73 | Merchant "a_b" with customer "c", and merchant "a" with customer "b_c". |
| ReverseLookups.ReusedIdMisleads | src/storage/kv/resource.rs:324-341 | A locker id used again with another hash: a duplicate is reported, and a search for the new hash returns the old row. |
| GetOrInsert.TraceInv | src/domain/fingerprint.rs:24-91 | The invariant over every interleaving of calls, replay, expiry and mode changes, one store command at a time. |
| GetOrInsert.Agreement | src/domain/fingerprint.rs:24-91 | In every permitted interleaving, under all unique indexes, no call fails, all calls for one key return the same row, and it is the truth of the key once no call is about to push. |
| Validity.OnlyProposedRows | src/domain/fingerprint.rs:24-91 | In every permitted interleaving, every row a call returns was the key's row before, or is, column for column, the row some call for that key came with, marked for the mode in which it went in. |
| Validity.FiveCommands | src/domain/fingerprint.rs:24-91 | Whatever else happens, a call given five store commands has returned. |
| GetOrInsert.ExpiryInFlight | src/storage/kv/scheme.rs:3-4 | A key that expires between another call's read and its insert gets two different answers. |
| GetOrInsert.Conservation | src/storage/kv/wrapper.rs:181-196 | Over every interleaving whatsoever, entries appended are the inserts whose HSETNX won, less those not pushed yet; per shard, what was there plus what was appended is what was replayed plus what is pending, in order. |
| GetOrInsert.StartInv | src/storage/kv/scheme.rs:8-14 | A vault that has only used Postgres starts with the invariant and with balanced books. |
| Keys.TablesDisjoint | src/storage/kv/partition_key.rs:29-51 | Printed keys of different tables never coincide. |
| Keys.KeyStringInjective | src/storage/kv/partition_key.rs:29-51 | Printed keys are injective: on all byte strings, and on columns without an underscore before the last. |
| Keys.VaultKeyShared | src/storage/kv/partition_key.rs:36-39 | A vault key shares its string with another vault key if and only if one of its columns holds an underscore. |
| Keys.LockerKeyShared | src/storage/kv/partition_key.rs:43-47 | The same for locker keys and their three columns. |
| Keys.RebuiltKey | src/storage/types.rs:201-208 | A key rebuilt from its printed form has the same string and the same shard. |
| Hex.DecodeEncode | src/storage/kv/partition_key.rs:33-42 | Hex decoding undoes hex encoding. |
| Hex.EncodeAt | src/storage/kv/partition_key.rs:33-42 | Each byte is two lower-case digits, the high half first. |
| Hex.DecodeAccepts | src/routes/key_custodian.rs:38-39 | Exactly strings of an even number of digits, in either case, decode. |
| Keys.PrintedForms | src/storage/kv/partition_key.rs:29-51 | The printed form of every kind of key, column by column. |
| Cache.CacheTransparent | src/storage/caching/fingerprint.rs:20-55 | For every run of cached finds and inserts, evictions and steps of other nodes, the drainer and operators, the cached store replies as the store itself would. |
| Cache.AbsenceIsNotCached | src/storage/caching/hash_table.rs:20-51 | A miss leaves the cache unchanged, and a row another node then adds is found at once. |
| Cache.Remembers | src/storage/caching.rs:217-232 | A row that is found or goes in is answered from then on without the store, and nothing else is. |
| Cache.CachingStore.Find | src/storage/caching/fingerprint.rs:20-41 | The answer is the store's answer and the truth of the key; a row is remembered, absence is not. |
| Cache.CachingStore.Insert | src/storage/caching/fingerprint.rs:43-55 | The answer is a plain table's; the caller's row is remembered exactly when it went in. |
| CardDedup.AddRefines | src/routes/data.rs:90-168 | An add replies and acts on the card book as promised, except, exactly, when it is a valid new card under a reference in use. |
| CardDedup.RunShowsBook | src/routes/data.rs:90-256 | Every reply of a run of adds, deletes and retrieves with fresh references is the card book's reply. |
| CardDedup.OneCardPerText | src/routes/data/transformers.rs:83-104 | At most one locker per merchant, customer and text, and one per merchant, customer and reference. |
| CardDedup.EntryStands | src/routes/data.rs:197-256 | A stored card keeps its reference, data and expiry through every run that does not delete it or find it expired. |
| CardDedup.SecondAddReturnsFirst | src/routes/data.rs:110-162 | A later add of the same text returns the first reference, and reports Duplicated if and only if its data equals the data stored. |
| CardDedup.ReusedReferenceLosesCard | src/domain/locker.rs:32-42 | A new card under a reference in use is answered as added, is not stored, and the reference still retrieves the old card. |
| CardDedup.InvalidAdds | src/routes/data/types.rs:179-190 | An add is refused before anything is done if and only if its expiry is not in the future or its card number is not one. |
| CardDedup.NewCardStored | src/storage/types.rs:157-174 | A new card is answered with the caller's own reference if there is one, the generated one otherwise; the row behind it has the request's columns, the time, the sealed data and the hash id of the text. |
| CardDedup.NewCardRetrieved | src/routes/data.rs:199-256 | Asking for that reference gives back exactly the data of the request, until it expires. |
| CardDedup.KnownReplies | src/routes/data.rs:121-133 | A stored text is answered from its locker, with Duplicated if and only if kind and data are equal; when the locker does not open, with a decoding error. |
| CardDedup.RetrieveReplies | src/routes/data.rs:199-256 | Why a retrieval answers as it does: no key, no row, expired, does not open, or the data. |
| CardDedup.RemoveReplies | src/routes/data.rs:176-195 | A deletion is answered with not-found if and only if the merchant has no key. |
| CardDedup.SealReply | src/domain/locker.rs:23-60 | With KV disabled the insert of a card fails, as not found, if and only if its columns are taken and its reference is not. |
| CardDedup.LoserFindsNothing | src/domain/locker.rs:23-43 | With KV disabled the insert-or-get of a locker ends in not-found, the store unchanged, if and only if its columns are taken and its reference is not. |
| CardRuns.RunServesBook | src/routes/data.rs:90-256 | In every KV mode, with replay, expiry and mode changes anywhere between the requests, every reply of a permitted run is the card book's reply. |
| CardRuns.NewCardServed | src/storage/types.rs:157-174 | In every mode a new card is answered with the caller's own reference if there is one, the generated one otherwise, and that reference gives back the data until it expires. |
| CardRuns.StepShowsBook | src/routes/data.rs:90-256 | One request or one step of the environment keeps the truths holding the book, and each locker sealed under its merchant's key with the hash row of its text. |
| CardRuns.FirstAddPermitted | src/routes/data.rs:149-161 | An empty vault takes any first card, in every mode. |
| CardRoutes.TenantApp.AddCard | src/routes/data.rs:90-168 | Invalid exactly for a past expiry or a bad card number; a new card is answered with its own or the generated reference and can be retrieved by it; where the tables, or with the KV path in use the truths, hold a card book, the reply is the book's and they hold the book it leaves. |
| CardRoutes.TenantApp.EncryptAndInsert | src/routes/data/crypto_operation.rs:15-36 | A card whose slot is free is stored in it under its reference; under a reference in use the answer is the same and nothing is stored. |
| CardRoutes.TenantApp.DeleteCard | src/routes/data.rs:172-195 | The card of that reference leaves the book; a merchant without a key is not found. |
| CardRoutes.TenantApp.RetrieveCard | src/routes/data.rs:199-256 | The data of the card with that reference; an expired card is reported missing and leaves the book. |
| MerchantKeys.KeyAgreement | src/domain/merchant.rs:18-85 | Over every interleaving with lagging replicas and per-node caches, all successful calls for a merchant hold the key of its one row, now and later, and what one encrypts any other decrypts. |
| MerchantKeys.MissMeansLag | src/domain/merchant.rs:48-63 | A step of a creating call ends in not-found if and only if the call has lost the insert and re-reads a replica that does not show the winner's row. |
| MerchantKeys.OnlyOtherFailure | src/storage/db.rs:56-80 | The one other failure is a master key of the wrong length, when creating. |
| MerchantKeys.PlainFind | src/crypto/keymanager/internal_keymanager.rs:19-41 | A call that only looks never comes to creating, and ends in not-found if and only if first its node's cache and then the replica it read did not show the merchant. |
| MerchantKeys.FindAddsNothing | src/crypto/keymanager/internal_keymanager.rs:19-41 | At no turn does such a call add a row. |
| MerchantKeys.KeyWasGenerated | src/domain/merchant.rs:32-36 | A merchant has no key but one generated for a creating call of its own. |
| MerchantKeys.LoserMisses | src/domain/merchant.rs:48-63 | A trace in which it happens: two calls on two nodes, the loser re-reading an empty replica. |
| MerchantKeys.MerchantStore.FindByMerchantId | src/storage/caching/merchant.rs:19-37 | A found key is the merchant's key and is remembered; not-found is never remembered. |
| MerchantKeys.Remembers | src/storage/caching/merchant.rs:29-35 | A call remembers its key at its own node, where the next look finds it, and at no other. |
| MerchantKeys.MerchantStore.FindOrCreate | src/domain/merchant.rs:18-85 | The key returned is the merchant's key, the new one only if there was none; existing keys stay. |
| Custodian.TenantsIndependent | src/routes/key_custodian.rs:64-154 | In every run a tenant's halves, master key and requests are those of the run of its own events alone. |
| Custodian.RunUnlocks | src/routes/key_custodian.rs:101-154 | A tenant that a run puts in service was put there by a decrypt of its own that found both halves, opened its secret with them and started its services. |
| Custodian.RunClears | src/routes/key_custodian.rs:141-153 | A half that a run takes away was taken by a decrypt of its own tenant that found one of the two missing. |
| Custodian.RunInv | src/tenant.rs:141-156 | Over every run, with admission and handling of requests interleaved, an unlocked tenant stays unlocked. |
| Custodian.UnlockedByTwoHalves | src/routes/key_custodian.rs:101-175 | In every run from the start, the key of an unlocked tenant came out of two validated halves submitted for it. |
| Custodian.CeremonyUnlocks | src/bin/utils.rs:120-138 | While other tenants do whatever they do, a locked tenant that submits the two printed halves, in either order, and decrypts ends up with exactly the generated master key in service. |
| Custodian.GlobalAppState.DecryptKey | src/routes/key_custodian.rs:101-175 | Each reply with its exact cause: unlocked if and only if both halves are held, their hexadecimal joins to a key under which the cipher opens the secret, and the services start; then that master key is in service. What happens to the halves; no other tenant sees anything, and none leaves service. |
| Custodian.DecryptReply | src/routes/key_custodian.rs:101-175 | The same of the handler as the runs use it. |
| Custodian.AdmitReply | src/custom_extractors.rs:40-60 | Why a request is let in or refused: an unknown tenant, one already unlocked, a half that is not 16 hexadecimal bytes. |
| Aes.CurrentOfNonce | src/crypto/encryption_manager/managers/aes.rs:46-59 | Reading a nonce in and out gives the same bytes. |
| Aes.NonceOfCurrent | src/crypto/encryption_manager/managers/aes.rs:46-59 | Writing a counter out and in gives it modulo 2^96. |
| Aes.BigEndianAt | src/crypto/encryption_manager/managers/aes.rs:47-57 | The i-th byte from the right counts 256 to the i. |
| Aes.AdvancesAt | src/crypto/encryption_manager/managers/aes.rs:63-72 | The i-th of n successive nonces is the 96-bit big-endian form of s + i modulo 2^96, through the 128-bit wrap. |
| Aes.NoncesDistinct | src/crypto/encryption_manager/managers/aes.rs:63-72 | Two successive nonces agree if and only if they are a multiple of 2^96 calls apart, so up to 2^96 are pairwise distinct. |
| Aes.NonceSequence.Advance | src/crypto/encryption_manager/managers/aes.rs:63-72 | Returns the nonce of the old counter and steps the counter, wrapping. |
| Aes.DecryptEncrypt | src/crypto/encryption_manager/managers/aes.rs:75-111 | With a 32-byte key decryption undoes encryption, given the cipher's own law; with any other length encryption fails. |
| Aes.Encrypt | src/crypto/encryption_manager/managers/aes.rs:77-90 | With a 32-byte key, and no other, the message is the given nonce followed by what the cipher seals under it. |
| Aes.Decrypt | src/crypto/encryption_manager/managers/aes.rs:92-111 | Plain, refused or a panic, each with its exact cause in the key, the length and the cipher's answer. |
| Validations.Luhn | src/validations.rs:59-71 | On digit strings it can sum without wrapping (every accepted length is one) the 8-bit loop decides the check of ISO/IEC 7812-1 Annex B. |
| Validations.TermIsWeighted | src/validations.rs:63-67 | One term computed in 8 bits is the weighted digit of the standard. |
| Validations.SingleDigitError | src/validations.rs:59-71 | At every length, changing one digit of a passing number makes it fail. |
| Validations.AdjacentTransposition | src/validations.rs:59-71 | At every length, swapping neighbours of a passing number goes unnoticed if and only if they are equal or are 0 and 9. |
| Validations.SanitizeCardNumber | src/validations.rs:13-56 | Accepts exactly the numbers of 8 to 19 digits, white space aside, that pass the check; says which rule failed. |
| Validations.StripConcat | src/validations.rs:14 | Stripping goes character by character (with `StripCharacter`: the 25 white space characters go, every other one stays). |
| Jose.JweBodyRoundTrip | src/crypto/encryption_manager/managers/jw.rs:70-95 | Splitting a joined JWE body gives it back if and only if none of its fields holds a dot. |
| Jose.JwsBodyRoundTrip | src/crypto/encryption_manager/managers/jw.rs:39-58 | The same for JWS. |
| Jose.JweStringRoundTrip | src/crypto/encryption_manager/managers/jw.rs:70-95 | A string splits if and only if it has at least 4 dots, and is given back if and only if it has exactly 4. |
| Jose.JwsStringRoundTrip | src/crypto/encryption_manager/managers/jw.rs:39-58 | The same with 2 dots. |
| Jose.DroppedParts | src/crypto/encryption_manager/managers/jw.rs:71-77 | What follows the last field taken is dropped, and nothing else. |
| Jose.JweFromStr | src/crypto/encryption_manager/managers/jw.rs:71-85 | Draws five parts in the order header, key, iv, payload, tag; fails exactly below 4 dots. |
| Jose.FieldOrder | src/crypto/encryption_manager/managers/jw.rs:52-94 | The order of the fields in the two compact forms. |
| Jose.Utf8Exactly | src/crypto/encryption_manager/managers/jw.rs:164-173 | The bytes accepted as a string are exactly the one- to four-byte forms of sequences of Unicode characters. |
| Jose.DecryptEncryptJose | src/crypto/encryption_manager/managers/jw.rs:97-174 | Every message is encrypted; decryption gives the message back if and only if it is UTF-8, and an error otherwise, given that tokens carry the dots of their form. |
| Jose.SignedThenSealed | src/crypto/encryption_manager/managers/jw.rs:100-128 | What is sent is a token sealing the JSON of the signed message; nothing is read but what the library opens and verifies. |
| Jose.BinaryMessageIsLost | src/crypto/encryption_manager/managers/jw.rs:167-174 | The one-byte message 0xFF. |
| KeyMigration.Storage.TransferKeys | src/routes/key_migration.rs:37-66 | From an up-to-date read with the manager answering, exactly min(limit, remaining) merchants move; in every case no row is overwritten and every new row points at the merchant's own key. |
| KeyMigration.Storage.SendRequestToKeyService | src/routes/key_migration.rs:68-85 | Succeeds if and only if every key is accepted and no merchant has a row already; then all of them move. |
| KeyMigration.Storage.FindAllKeysExcludingEntityKeys | src/storage/db.rs:82-120 | Distinct merchants without an entity, as many as the limit allows. |
| KeyMigration.MigrationFinishes | src/routes/key_migration.rs:37-85 | Error-free calls with a positive limit leave no merchant without a row after i calls if and only if i is at least ceil(n / limit). |

## Left out

- The serial `id` column: it is 0 on the Redis path and no caller reads it.
- Redis and stream failures: a push that fails after a Redis write, which the code accepts, is not modelled.
- Replica reads in the KV core go to the primary; a lagging replica appears in `MerchantKeys` and `KeyMigration` only.
- Updates and deletes of one key are atomic in `Runs`; `Witnesses.UpdatesCross` shows what their interleaving does. The
  insert protocol is interleaved command by command in `GetOrInsert`.
- GetOrInsert.Agreement: a mode change happens while no call is under way, Disabled is entered with empty streams, and a
  generated id that must be unique is in no other row, entry or call.
- CardDedup.RunShowsBook: with the KV path disabled, and requests one after another; the background removal of an expired
  card completes before the next request. `CardRuns.RunServesBook` covers the other modes, still one request at a time:
  two concurrent adds of one card can race (`CardDedup.LoserFindsNothing`, `CardDedup.SealReply`).
- Concurrent migration requests of one batch are taken in sequence: they touch different merchants.
- A message shorter than a nonce makes `decrypt` panic; `Aes.Decrypted` reports it as its own outcome, and the
  custodian's decrypt then keeps both halves, as for a refusal.
- Custodian tenants whose services fail to start keep their halves; why they fail is a parameter.
- The external key manager, its entity routes and the entity cache: network calls and a copy of the merchant cache.
- HTTP routing, rate limits, TLS, metrics, health checks and configuration loading.
- base64, JSON and ISO 8601 formatting, HMAC, SHA-512, AES, RSA and CRC-32 internals.
- The vault v2 routes, which add request parsing to the compositions already modelled.
- Per-tenant prefixes of Redis keys, which a library adds.

# ZipChallenge data layer, modelled in Dafny

ZipChallenge is an iOS app that tracks stock tickers. Its data layer keeps
the stocks in two places:

- an in-memory cache (`CacheRepository`), whose list is replaced wholesale by
  `set` and patched in place by `update`;
- a Core Data store (`DataRepository`), whose `save` upserts a batch of
  records by symbol and commits it, and whose `fetchStocks` reads every record
  back sorted by symbol.

This project models those two repositories, the managed object's
`update(with:)` that `save` applies to each record, and the
`Array.toChunks(of:)` helper. It proves what each operation does and the
properties that follow.

Modules, one per source file, plus two shared ones:

- `StockModel` (`stock_model.dfy`): the eleven-field `StockRecord` value.
  It stands for both `StockModel` and `StockPersistable`, whose definitions are
  not part of this model. It also holds the lookups by symbol shared by the two
  repositories.
- `StockEntity` (`stock_entity.dfy`): the Core Data `Stock` object as a class
  with eleven mutable fields and its `Update` method.
- `Cache` (`cache_repository.dfy`): the `CacheRepository` class, whose
  `cachedStocks` is a `seq` field. `CacheUpdate` is the function that
  specifies `update`.
- `SymbolOrder` (`symbol_order.dfy`): the ascending order on symbols that the
  fetch sort uses, and a sort by it.
- `Persistence` (`data_repository.dfy`): the `DataRepository` class. The
  committed table is a `seq` of records. `save` works on a local copy, which
  plays the background context, and then commits or discards it.
  `UpsertAll` is the function that specifies `save`.
- `ArrayExtensions` (`array_extensions.dfy`): `toChunks` as a recursive
  function over the stride positions.

Design decisions, where the code was followed:

- Records are compared by their key. `firstIndex(of:)` in the cache relies on
  `StockModel`'s `Equatable` conformance, which is not part of this model. It
  is modelled as "same `symbol`", matching the store's lookup predicate
  `symbol == %@`.
- `Stock.update(with:)` copies all eleven fields, `isFavorite` and
  `hasProfileData` included. The new record is therefore the incoming value,
  whatever the object held before. The model does not add a per-field merge
  that keeps profile or favourite fields: the code has none.
- `save` walks the batch in order. A fetch inside the context also sees the
  records inserted earlier in the same batch, so when a symbol occurs twice in
  a batch the later record wins.
- `try? context.fetch(...).first` treats a fetch that throws the same way as
  one that finds nothing: a new object is inserted. The model keeps that
  branch through the `lookupFails` parameter. `LookupFailureDuplicates` shows
  that it can store a symbol twice. Uniqueness and the growth count are proved
  for batches whose lookups all succeed.
- `hasChanges` is set for every processed record, since each one either
  inserts an object or assigns its attributes. An empty batch commits nothing
  and leaves the store as it was.
- `toChunks(of:)` traps only for a stride of 0. A negative stride from 0
  never reaches `count`, so it yields no chunk. `ToChunks` therefore requires
  `size != 0`, and for `size < 0` it returns `[]`.
- Failures that the environment decides are boolean parameters: `fetchFails`
  for the fetch, `lookupFails` per record of a batch, and `commitFails` for
  the commit.

## Model

| member | source | states |
|---|---|---|
| `StockModel.FirstIndexOf` | ZipChallenge/Repositories/CacheRepository.swift:32 | the result is the first position holding the symbol: no earlier position holds it, and there is no result exactly when the symbol is absent |
| `StockModel.Lookup` | ZipChallenge/Repositories/DataRepository.swift:74-76 | the fetch by symbol finds a stored record with that symbol, and finds nothing exactly when no record has it |
| `StockEntity.Stock.Inserted` | ZipChallenge/Repositories/DataRepository.swift:77 | a newly inserted object holds default attribute values |
| `StockEntity.Stock.Fetched` | ZipChallenge/Repositories/DataRepository.swift:76 | a fetched object holds exactly the stored row |
| `StockEntity.Stock.Update` | ZipChallenge/Models/Stock+Extensions.swift:18-30 | after the update the object's record equals the incoming value in all eleven fields, whatever it held before; symbol, favourite flag and profile flag are copied too |
| `StockEntity.UpdateIdempotent` | ZipChallenge/Models/Stock+Extensions.swift:18-30 | updating twice with a value gives the same record as updating once, even for objects that started out different |
| `Cache.CacheRepository.constructor` | ZipChallenge/Repositories/CacheRepository.swift:25-27 | a fresh cache is empty |
| `Cache.CacheRepository.Set` | ZipChallenge/Repositories/CacheRepository.swift:38-40 | after `set`, the cached list is exactly the given list |
| `Cache.SetIdempotent` | ZipChallenge/Repositories/CacheRepository.swift:38-40 | setting the same list twice leaves the cache as setting it once |
| `Cache.CacheRepository.Update` | ZipChallenge/Repositories/CacheRepository.swift:30-36 | the loop leaves the cache equal to `CacheUpdate` of the old cache and the batch, and its length is unchanged |
| `Cache.ReplaceFirstMatch` | ZipChallenge/Repositories/CacheRepository.swift:32-34 | one step keeps the length and the symbol at every position |
| `Cache.CacheUpdate` | ZipChallenge/Repositories/CacheRepository.swift:30-36 | the whole update never grows or shrinks the cache and never changes the symbol at any position |
| `Cache.CacheUpdateAt` | ZipChallenge/Repositories/CacheRepository.swift:31-34 | each position ends up holding the last incoming stock with its symbol if it is that symbol's first position, and otherwise keeps its old entry |
| `Cache.CacheUpdateNoMatch` | ZipChallenge/Repositories/CacheRepository.swift:31-35 | an update none of whose stocks matches a cached entry leaves the cache unchanged |
| `Cache.CacheUpdateFromEither` | ZipChallenge/Repositories/CacheRepository.swift:31-35 | every entry afterwards is either the old entry at that position or one of the incoming stocks |
| `Cache.CacheUpdateUntouched` | ZipChallenge/Repositories/CacheRepository.swift:32-33 | a position that is not the first match of any incoming stock keeps its entry |
| `Cache.CacheUpdateLastWins` | ZipChallenge/Repositories/CacheRepository.swift:31-34 | a matching incoming stock with no later stock of the same symbol ends up at its first matching position |
| `SymbolOrder.SymbolLeTotal` | ZipChallenge/Repositories/DataRepository.swift:51 | any two symbols are comparable in the sort order |
| `SymbolOrder.SymbolLeTransitive` | ZipChallenge/Repositories/DataRepository.swift:51 | the sort order is transitive |
| `SymbolOrder.SymbolLeAntisymmetric` | ZipChallenge/Repositories/DataRepository.swift:51 | two symbols each at or below the other are equal |
| `SymbolOrder.InsertBySymbol` | ZipChallenge/Repositories/DataRepository.swift:50-52 | inserting into a sorted list keeps it sorted and adds exactly that record |
| `SymbolOrder.SortBySymbol` | ZipChallenge/Repositories/DataRepository.swift:50-54 | the sort's result is ordered by symbol ascending and is a permutation of the stored rows |
| `SymbolOrder.SortedByUniqueSymbolIsUnique` | ZipChallenge/Repositories/DataRepository.swift:50-54 | with unique symbols, only one ordering of the rows is sorted by symbol, so the fetch result does not depend on the sort used |
| `Persistence.Upsert` | ZipChallenge/Repositories/DataRepository.swift:72-82 | one record adds at most one row, adds its symbol, keeps every row of another symbol, and is stored afterwards |
| `Persistence.UpsertAll` | ZipChallenge/Repositories/DataRepository.swift:72-82 | the batch never removes rows and adds at most one per record; the stored symbols become the old ones plus the batch's; rows whose symbol is not in the batch are untouched |
| `Persistence.UpsertLookup` | ZipChallenge/Repositories/DataRepository.swift:74-81 | after one successful upsert, a lookup of its symbol finds the record, and a lookup of any other symbol finds what it found before |
| `Persistence.UpsertAllLookup` | ZipChallenge/Repositories/DataRepository.swift:72-82 | after the batch, each batch symbol is stored with the fields of the last batch record carrying it; every other symbol finds what it found before |
| `Persistence.UpsertAllUnique` | ZipChallenge/Repositories/DataRepository.swift:76-81 | symbols unique before the batch are unique after it |
| `Persistence.UpsertAllGrowth` | ZipChallenge/Repositories/DataRepository.swift:76-81 | the table grows by exactly the number of distinct batch symbols not stored before |
| `Persistence.LookupFailureDuplicates` | ZipChallenge/Repositories/DataRepository.swift:76-79 | a lookup that throws inserts a second row for a symbol already stored |
| `Persistence.SaveOne` | ZipChallenge/Repositories/DataRepository.swift:73-81 | the closure body, with its fetched or inserted `Stock` object and `update(with:)`, yields exactly `Upsert` of the context |
| `Persistence.DataRepository.constructor` | ZipChallenge/Repositories/DataRepository.swift:28-33 | the repository starts from the rows already persisted |
| `Persistence.DataRepository.FetchStocks` | ZipChallenge/Repositories/DataRepository.swift:49-59 | a failed fetch returns the empty list; otherwise the result is sorted by symbol ascending and holds exactly the stored rows |
| `Persistence.DataRepository.Save` | ZipChallenge/Repositories/DataRepository.swift:67-92 | a failed commit leaves the stored rows unchanged; otherwise they become `UpsertAll` of the old rows and the batch (an empty batch leaves them unchanged) |
| `ArrayExtensions.ChunksFrom` | ZipChallenge/Extensions/Array+Extensions.swift:14-16 | every chunk from a stride position is non-empty and at most `size` long, and every chunk but the last is exactly `size` long |
| `ArrayExtensions.ToChunks` | ZipChallenge/Extensions/Array+Extensions.swift:13-17 | a negative size or an empty array gives no chunk; `0 < count <= size` gives the single chunk holding the whole array; chunk sizes are bounded as above |
| `ArrayExtensions.ToChunksFlatten` | ZipChallenge/Extensions/Array+Extensions.swift:13-17 | concatenating the chunks in order gives back the array |
| `ArrayExtensions.ToChunksCount` | ZipChallenge/Extensions/Array+Extensions.swift:14 | there are `ceil(count / size)` chunks |

## Left out

- `saveOnSeparateThread` (background dispatch) is not modelled. `save` is
  modelled as a synchronous method, because the dispatch only adds
  concurrency.
- Core Data container loading (its `fatalError` on a load error), merge
  policies, undo managers, `performAndWait` and context reset are framework
  machinery. The store is a sequence of committed rows, and the context is a
  local copy that is committed or dropped.
- `DataError.log()` is logging (I/O) and is not modelled. A failed fetch or
  commit is visible only through the result and the unchanged rows.
- `Persistence.UpsertAllUnique`, `Persistence.UpsertAllGrowth` and
  `Persistence.UpsertAllLookup` are stated only for batches whose lookups all
  succeed. A lookup that throws leads to an extra insert, as
  `Persistence.LookupFailureDuplicates` shows.
- `SymbolOrder.SortBySymbol` orders symbols by character, lexicographically.
  Foundation's string comparison works on UTF-16 code units, and the two can
  differ outside the Basic Multilingual Plane.
- `StockEntity.Stock.Inserted` uses placeholder defaults. The managed
  object model's real defaults are not part of this model. `update(with:)`
  overwrites every field anyway, so they never reach the store.
- The `Double` fields are `real` values. Nothing in these files computes with
  them, so floating point is not modelled.
- `FavoriteStockViewController.swift` and `RefreshHandler.swift` are UI and
  event wiring: table rows, scrolling, delayed profile fetch triggers and
  refresh controls.
- `StockList.swift` and `StockPriceList.swift` are JSON decoding types with no
  logic. `Result.swift` is a plain two-case enum, and nothing here needs it.
- Field-scoped merges by update kind are not modelled, because the code does
  not implement them. Price-only, profile-only and favourite-only updates that
  would keep the other fields do not exist here: `update(with:)` and the
  cache's `update` both replace the whole record.

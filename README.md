# ManageBDD: a verified model of the single-connection SQLite worker

The DatabaseManagement service runs every SQL query on one worker object,
`ManageBDD`. The worker owns the only SQLite connection. Each request names
a logical database (`dbName`). When that name differs from the one used last,
the worker closes the connection, resolves the name to a file path and opens
that file and issues `PRAGMA synchronous=OFF`. If the connection is open,
it runs the query. Every request emits exactly one `resultFromSQLQuery` signal:
- if the connection is open, the records are the header record followed by
  one record per row; otherwise the list is empty;
- the caller's `sender`, `id` and `data` are echoed back unchanged.

Resolved paths are cached by name and never change afterwards. On Linux a
database is read in place under `<cwd>/databases/`. On QNX and Windows it is
copied once from the application's template directory into a writable data
directory.

The project has four modules:
- `BddTypes` (bdd_types.dfy) holds the values: records, requests, emitted
  signals, events, the platform and the host paths. It also holds the SQLite
  engine, given as two oracles: whether a path opens, and what running a
  query at a path yields.
- `BddModel` (bdd_model.dfy) is the worker as a state machine on values. It
  has one function per step of manageBDD.cpp: `ResolveStep`, `LinuxStep`,
  `CopyStep`, `OpenStep`, `SwitchStep`, `ExecuteStep` and `DestroyStep`.
  `Run` serves a sequence of requests in arrival order.
- `BddProperties` (bdd_properties.dfy) holds the lemmas about those steps,
  for one request and for any run of requests.
- `ManageBdd` (manage_bdd.dfy) is the imperative worker. Class `ManageBDD`
  has the source's fields (`localDBName`, `previousDbName`,
  `applicationPath`, `databasePath`, `nameToPathHash`). It owns a
  `SqlConnection` object (`databaseName`, `isOpen`) and works on a
  `FileSystem` object: the set of existing paths as the worker sees it. That
  set changes only through the worker's own mkpath, template copy and
  successful open; the SQLite driver creates a missing file when it opens it.
  It also keeps the list of emitted signals and a ghost trace of events:
  Close, Open(path), Pragma, Copy(template, destination), Exec(query).
  Each method is proved to change
  this state exactly as its `BddModel` step does. So every lemma of
  `BddProperties` holds of the class.

The platform `#ifdef` in `openDatabase` becomes a fixed `Platform` value:
- `Linux`;
- `CopyPlatform`, for QNX and Windows;
- `OtherPlatform`, for a build where no branch is compiled and the path stays empty.

Behaviour the model keeps exactly as the code has it, even where a reader
might expect otherwise:
- On an open connection, a query whose `exec()` fails still yields a
  one-element list holding the record `record()` returns. It is not an empty
  list (manageBDD.cpp:147-149). Since the failed query is inactive, that record
  is in practice an empty `QSqlRecord`, not the column header. The model leaves
  its contents to the engine.
- A successful query yields the header record and then the rows. A query
  returning one row therefore yields two records.
- A failed open is still recorded as the current name, so the next request
  for the same name does not retry it and gets an empty list
  (manageBDD.cpp:134-138).
- `nameToPathHash[dbName]` on a non-const `QHash` inserts an empty entry for
  an absent key (manageBDD.cpp:56). An empty entry counts as a cache miss
  (manageBDD.cpp:59).

## Model

| member | source | states |
|---|---|---|
| `ManageBdd.ManageBDD.constructor` | manageBDD.cpp:26-34 | a fresh worker has empty `localDBName`, `previousDbName` and `databasePath`, an empty cache, no open connection, nothing emitted, and its state is `BddModel.Initial` |
| `ManageBdd.SqlConnection.Open` | manageBDD.cpp:91 | opens as the engine allows, sets the open flag to the result, and a successful open of a named file leaves that file on disk |
| `ManageBdd.ManageBDD.OpenDatabase` | manageBDD.cpp:53-94 | changes the worker, the connection and the disk exactly as `BddModel.OpenStep`: resolve the name (cache first, then the platform branch), set the connection's database name to the resolved path, open it; returns whether it is open |
| `ManageBdd.ManageBDD.CopyDatabaseToWritableDirectory` | manageBDD.cpp:96-124 | changes the state exactly as `BddModel.CopyStep`: the data directory is computed and created only while `databasePath` is empty, the template is copied only if the destination is absent and the template present, and the destination is cached either way |
| `ManageBdd.ManageBDD.ExecuteSqlQuery` | manageBDD.cpp:131-154 | changes the state exactly as `BddModel.ExecuteStep`; afterwards `previousDbName == dbName`, and exactly one signal is appended, echoing `sender`, `id` and `data` |
| `ManageBdd.ManageBDD.Destroy` | manageBDD.cpp:39-42 | closes the connection if and only if it is open, as `BddModel.DestroyStep` does, and leaves it closed |
| `ManageBdd.FetchResults` | manageBDD.cpp:149-151 | the collected list is the header record followed by every fetched row in fetch order, one longer than the row count |
| `BddModel.Touch` | manageBDD.cpp:56 | reading the hash by `operator[]` adds the name as a key with an empty value when absent and leaves every present entry unchanged |
| `BddModel.ExecuteStep` | manageBDD.cpp:131-154 | every request records its name as `previousDbName` whether or not the open succeeded, and appends exactly one emission, echoing its sender, id and data, after the earlier ones |
| `BddProperties.FreshInstanceEmptyName` | manageBDD.cpp:31-33 | a fresh worker asked for database "" opens nothing, resolves nothing and emits one empty list |
| `BddProperties.SameNameKeepsConnection` | manageBDD.cpp:134 | a request for the current name causes no Close, Open, Pragma or Copy; connection, cache, base path and disk are unchanged; only an Exec is added when the connection is open |
| `BddProperties.SwitchOrder` | manageBDD.cpp:134-141 | a request for a different name adds exactly Close, then at most one Copy into the new path, then Open of the resolved path, then Pragma, and only then the Exec; the connection is open exactly when the engine opens that path |
| `BddProperties.ResolveTraceShape` | manageBDD.cpp:56-81 | a resolution adds no event, or a single Copy whose destination is the resolved path, did not exist before and exists afterwards; the disk never shrinks |
| `BddProperties.ResolveIgnoresTraceAndOpen` | manageBDD.cpp:136-137 | the close before the open does not change the resolved path, cache, disk or base path |
| `BddProperties.ExecuteResultList` | manageBDD.cpp:142-153 | the emitted list is empty when the connection is not open after the switch; otherwise it is the header record followed by every fetched row, one longer than the row count, and only the header when exec fails |
| `BddProperties.FailedOpenNotRetried` | manageBDD.cpp:134-142 | after a request whose open failed, the next request for the same name adds no event and emits an empty list |
| `BddProperties.SelectOneOnFreshWorker` | manageBDD.cpp:131-154 | `SELECT 1 AS value1` on "test.db" with id 7 from a fresh Linux worker opens `<cwd>/databases/test.db`, leaves that file on disk, and emits one result with id 7 and null data holding the header record and then the row { value1: 1 } |
| `BddProperties.CreatedFileBlocksLaterCopy` | manageBDD.cpp:85-115 | on a copy platform with no template, nothing is copied; if the open succeeds the destination now exists, so a later worker on any disk that still holds it does not copy the template for that name, even if the template has appeared since |
| `BddProperties.CacheHitReused` | manageBDD.cpp:56-59 | a non-empty cache entry is opened unchanged: no copy, no base-path computation, cache untouched, the disk changed only by the file a successful open creates, and the only event is Open of that path |
| `BddProperties.ResolveKeepsEntries` | manageBDD.cpp:56-79 | a resolution adds the name as a key and keeps every non-empty entry as it was |
| `BddProperties.ResolveMiss` | manageBDD.cpp:76-79 | on a miss, the base path is computed only if empty; the path is base + name on Linux and base + "/" + name on a copy platform, is empty on other platforms, and is cached even when nothing was copied |
| `BddProperties.CopyOnFirstUse` | manageBDD.cpp:98-115 | on a copy platform the template is copied exactly when the destination is absent and the template present; afterwards the destination exists exactly when it or the template existed |
| `BddProperties.ResolvedPathCached` | manageBDD.cpp:78-79 | on Linux and copy platforms every resolution leaves a non-empty cache entry equal to the resolved path |
| `BddProperties.ResolveIdempotent` | manageBDD.cpp:56-124 | resolving the same name a second time changes nothing: it gives the same path and does not copy |
| `BddProperties.ExecuteKeepsEntries` | manageBDD.cpp:56-123 | no request removes a cache key or changes a non-empty entry |
| `BddProperties.RunKeepsEntries` | manageBDD.cpp:56-123 | over any run of requests the cache only grows and a non-empty entry is never changed or removed |
| `BddProperties.ExecuteSetsBaseOnce` | manageBDD.cpp:76-101 | a request leaves `databasePath` alone, or sets it from empty to the platform's base |
| `BddProperties.RunSetsBaseOnce` | manageBDD.cpp:76-101 | over any run `databasePath` is assigned at most once, and only while it is empty |
| `BddProperties.RunEchoesEveryRequest` | manageBDD.cpp:153 | over any run exactly one result is emitted per request, in request order, each echoing its request's sender, id and data |
| `BddProperties.ExecuteKeepsCopiesDistinct` | manageBDD.cpp:109-115 | a request keeps two facts: every recorded copy destination exists, and no two copies share a destination |
| `BddProperties.RunCopiesOnce` | manageBDD.cpp:109-115 | over any run from such a state no destination is ever copied to twice |
| `BddProperties.FreshRunCopiesOnce` | manageBDD.cpp:109-115 | from a fresh worker, any run copies to each destination at most once |
| `BddProperties.ReplayAppend` | manageBDD.cpp:136-137 | replaying the connection events of a concatenated trace resumes the second part where the first left off |
| `BddProperties.ReplayCloseBeforeOpen` | manageBDD.cpp:136-137 | in a trace that replays without violation, there is a Close between any two Opens |
| `BddProperties.ReplaySwitch` | manageBDD.cpp:136-141 | the events of a database switch replay without violation |
| `BddProperties.ExecuteKeepsDiscipline` | manageBDD.cpp:134-141 | no request opens a connection while one may still be open |
| `BddProperties.RunKeepsDiscipline` | manageBDD.cpp:134-141 | over any run no Open happens while a connection may be open |
| `BddProperties.FreshRunOneConnection` | manageBDD.cpp:39-42 | from a fresh worker, after any run and the destructor no connection is open, and there is a Close between any two Opens in the whole trace |
| `BddProperties.DestroyClosesIffOpen` | manageBDD.cpp:41-42 | the destructor adds a Close exactly when the connection is open and leaves it closed |

## Left out

- The thread that hosts the worker (databaseThread.cpp, databaseThread.h) is not part of this model: the `QThread` lifecycle, queued signal/slot delivery, `start`/`stop`, and subscribe/unsubscribe through `QObject::connect`. `BddModel.Run` stands for the worker's slot being invoked once per request, in arrival order.
- The delivery guard in databaseThread.cpp:159-162 is outside the worker. The receiver is only echoed here, as an opaque `ObjectRef`.
- DatabaseServiceUserInterface.h declares an interface without logic and is not part of this model.
- The SQLite engine is two oracles of the `Engine` value passed with each request: whether opening a path succeeds, and the header and rows a query yields. Its contents and the effect of `PRAGMA synchronous=OFF` are not modelled; the pragma is only a trace event.
- `QSqlQuery::prepare` is not modelled separately from `exec()`. A prepare failure is one way `exec()` fails.
- `QDir::currentPath()`, `QStandardPaths::writableLocation(DataLocation)` and `QCoreApplication::applicationDirPath()` are fixed `Host` values for one worker's lifetime. `QDir::absolutePath` normalisation is not modelled: the data location is taken as already absolute.
- The disk changes only through the worker's own mkpath, template copy and successful open. Changes made by anything else between requests (another process, a file deleted after it was cached) are not modelled.
- Whether a failed open leaves a file behind is not modelled: only a successful open of a non-empty name adds its file.
- Paths are compared as plain strings. Two spellings of the same file (for example `a//b` and `a/b`) are different paths here.
- `FileSystem.MkPath` always succeeds. `FileSystem.Copy` fails only when the source is missing or the destination exists, which the worker checks before calling it. Other I/O failures are not modelled.
- `QFile::setPermissions` (manageBDD.cpp:120) and `setHostName("localhost")` (manageBDD.cpp:84) have no effect on anything modelled and are left out. So are the destructor's `connectionName`/`removeDatabase`/`delete` (manageBDD.cpp:43-47).
- All `qDebug` output is left out, including the validity print at manageBDD.cpp:29 and the failure message at manageBDD.cpp:148.
- The unused fields `field`, `username`, `fieldName` and `value` (manageBDD.h:31-35) are left out.
- A null `QString` and an empty one are both the empty string: manageBDD.cpp:59 treats them alike.
- The request `id` is a C++ `int` that is only echoed, so the model uses an unbounded `int`.
- The `SqlValue` kinds are a fixed sample of what a `QVariant` column value can hold; the worker never inspects them.

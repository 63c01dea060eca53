/**
 * Values shared by the model of the ManageBDD worker: the host it runs on,
 * the records the SQLite engine returns, the engine itself (as oracles),
 * the objects a caller passes through, and the observable events.
 */
module BddTypes {

  /** Which `#ifdef` branch of `openDatabase` is compiled in. */
  datatype Platform =
    | Linux         // Q_OS_LINUX: read databases in place under <cwd>/databases/
    | CopyPlatform  // Q_OS_QNX, Q_OS_WIN32, Q_OS_WIN64: copy the template to a writable directory
    | OtherPlatform // none of the above: no branch is compiled, the path stays empty

  /**
   * What the operating system reports to the worker, taken as fixed for the
   * lifetime of one instance: `QCoreApplication::applicationDirPath()`,
   * `QDir::currentPath()` and the absolute path of
   * `QStandardPaths::writableLocation(DataLocation)`.
   */
  datatype Host = Host(platform: Platform, applicationDir: string, currentDir: string, dataLocation: string)

  /** A dynamically typed column value. */
  datatype SqlValue = NullValue | IntValue(i: int) | RealValue(r: real) | TextValue(t: string) | BlobValue(b: seq<bv8>)

  datatype Field = Field(name: string, value: SqlValue)

  /** A `QSqlRecord`: the columns of one row, in column order. */
  datatype Record = Record(fields: seq<Field>)

  /**
   * What the engine does with one prepared query: `exec()` fails or succeeds;
   * either way `record()` right after it gives the header record, and a
   * successful execution is followed by the rows that `next()` steps through.
   * After a failed `exec()` the query is inactive, and its record is in
   * practice an empty `QSqlRecord` rather than the column header.
   */
  datatype Outcome =
    | ExecFailed(header: Record)
    | Executed(header: Record, rows: seq<Record>)

  /** The rows the cursor steps through after execution, in fetch order. */
  function Fetched(o: Outcome): seq<Record>
  {
    match o
    case ExecFailed(_) => []
    case Executed(_, rows) => rows
  }

  /**
   * The SQLite engine as oracles: whether opening the database file at a path
   * succeeds, and the outcome of running a query on the database at a path.
   */
  datatype Engine = Engine(opens: string -> bool, run: (string, string) -> Outcome)

  /** A `QPointer<QObject>`: null or the address of some object the worker never inspects. */
  datatype ObjectRef = NullRef | Ref(address: nat)

  /** One `resultFromSQLQuery(results, receiver, id, data)` signal. */
  datatype Emission = Emission(results: seq<Record>, receiver: ObjectRef, id: int, data: ObjectRef)

  /** One `executeSQLQuery(query, sender, id, dbName, data)` request. */
  datatype Request = Request(query: string, sender: ObjectRef, id: int, dbName: string, data: ObjectRef)

  /** A request together with how the engine answers at the time it is served. */
  datatype Call = Call(request: Request, engine: Engine)

  /** Effects on the connection and the file system, in the order they happen. */
  datatype Event =
    | Close                          // the connection is closed
    | Open(path: string)             // the connection is opened on the file at path
    | Pragma                         // the pragma is issued (it has no effect on a closed connection)
    | Copy(from: string, to: string) // the template is copied to the writable directory
    | Exec(query: string)            // the query is prepared and run on an open connection
}

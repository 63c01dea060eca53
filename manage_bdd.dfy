/**
 * The ManageBDD worker object of manageBDD.cpp, with the connection and the
 * disk it works on. Every method changes the fields exactly as the matching
 * step of BddModel says, so the properties proved there hold of it.
 */
module ManageBdd {
  import opened BddTypes
  import BddModel

  /** A `QSqlDatabase` connection: the database name it is set to and whether it is open. */
  class SqlConnection {
    var databaseName: string
    var isOpen: bool

    /** `QSqlDatabase::addDatabase("QSQLITE")`: a connection that is not open yet. */
    constructor ()
      ensures databaseName == "" && !isOpen
    {
      databaseName := "";
      isOpen := false;
    }

    /** Closing a connection that is not open does nothing. */
    method Close()
      modifies this
      ensures !isOpen && databaseName == old(databaseName)
    {
      isOpen := false;
    }

    method SetDatabaseName(name: string)
      modifies this
      ensures databaseName == name && isOpen == old(isOpen)
    {
      databaseName := name;
    }

    /**
     * Opens the database file the connection is set to, as the engine allows;
     * a successful open creates the named file on `disk` if it is missing.
     */
    method Open(engine: Engine, disk: FileSystem) returns (ok: bool)
      modifies this, disk
      ensures ok == engine.opens(databaseName) && isOpen == ok
      ensures databaseName == old(databaseName)
      ensures disk.paths == BddModel.AfterOpen(old(disk.paths), databaseName, ok)
    {
      ok := engine.opens(databaseName);
      isOpen := ok;
      if ok && databaseName != "" {
        disk.paths := disk.paths + {databaseName};
      }
    }
  }

  /**
   * The disk as the worker sees it: the paths of the files and directories
   * that exist, changed only by the worker's own mkpath, copy and open.
   */
  class FileSystem {
    var paths: set<string>

    constructor (initial: set<string>)
      ensures paths == initial
    {
      paths := initial;
    }

    predicate Exists(path: string)
      reads this
    {
      path in paths
    }

    /** `QDir::mkpath`. */
    method MkPath(dir: string)
      modifies this
      ensures paths == old(paths) + {dir}
    {
      paths := paths + {dir};
    }

    /** `QFile::copy`: fails when the source is missing or the destination already exists. */
    method Copy(from: string, to: string) returns (ok: bool)
      modifies this
      ensures ok == (from in old(paths) && to !in old(paths))
      ensures paths == if ok then old(paths) + {to} else old(paths)
    {
      ok := from in paths && to !in paths;
      if ok {
        paths := paths + {to};
      }
    }
  }

  /**
   * The result list built on an open connection: the header record, then one
   * record per row the cursor steps through, in fetch order.
   */
  method FetchResults(o: Outcome) returns (results: seq<Record>)
    ensures |results| == |Fetched(o)| + 1 && results[0] == o.header
    ensures forall i :: 0 <= i < |Fetched(o)| ==> results[i + 1] == Fetched(o)[i]
  {
    var rows := Fetched(o);
    results := [o.header];
    var i := 0;
    while i < |rows|
      invariant 0 <= i <= |rows|
      invariant results == [o.header] + rows[..i]
    {
      results := results + [rows[i]];
      i := i + 1;
    }
    assert rows[..i] == rows;
  }

  /** The worker: one connection, the resolved paths and the signals it has emitted. */
  class ManageBDD {
    const host: Host
    const dataBase: SqlConnection
    const fs: FileSystem
    var localDBName: string
    var previousDbName: string
    var applicationPath: string
    var databasePath: string
    var nameToPathHash: map<string, string>
    /** The `resultFromSQLQuery` signals emitted so far, oldest first. */
    var emitted: seq<Emission>
    /** The connection and file effects so far, oldest first. */
    ghost var trace: seq<Event>

    ghost predicate Valid()
      reads this
    {
      applicationPath == host.applicationDir
    }

    /** The worker, its connection and the disk, as one value. */
    ghost function Model(): BddModel.State
      reads this, dataBase, fs
    {
      BddModel.State(localDBName, previousDbName, databasePath, nameToPathHash,
                     dataBase.databaseName, dataBase.isOpen, fs.paths, trace, emitted)
    }

    /** A worker with nothing selected, nothing resolved and no open connection (manageBDD.cpp:26-34). */
    constructor (host: Host, fs: FileSystem)
      ensures Valid() && this.host == host && this.fs == fs && fresh(dataBase)
      ensures localDBName == "" && previousDbName == "" && databasePath == ""
      ensures nameToPathHash == map[] && !dataBase.isOpen && emitted == []
      ensures Model() == BddModel.Initial(fs.paths)
    {
      this.host := host;
      this.fs := fs;
      dataBase := new SqlConnection();
      applicationPath := host.applicationDir;
      localDBName := "";
      databasePath := "";
      previousDbName := "";
      nameToPathHash := map[];
      emitted := [];
      trace := [];
    }

    /** openDatabase (manageBDD.cpp:53-94). */
    method OpenDatabase(dbName: string, engine: Engine) returns (ok: bool)
      requires Valid()
      modifies this, dataBase, fs
      ensures Valid()
      ensures Model() == BddModel.OpenStep(old(Model()), host, engine, dbName)
      ensures ok == dataBase.isOpen && dataBase.databaseName == localDBName
    {
      if dbName !in nameToPathHash {
        nameToPathHash := nameToPathHash[dbName := ""];
      }
      localDBName := nameToPathHash[dbName];
      if localDBName == "" {
        match host.platform
        case CopyPlatform =>
          CopyDatabaseToWritableDirectory(dbName);
        case Linux =>
          if databasePath == "" {
            databasePath := BddModel.PlatformBase(host);
          }
          nameToPathHash := nameToPathHash[dbName := databasePath + dbName];
          localDBName := nameToPathHash[dbName];
        case OtherPlatform =>
      }
      dataBase.SetDatabaseName(localDBName);
      ok := dataBase.Open(engine, fs);
      trace := trace + [Open(localDBName)];
    }

    /** copyDatabaseToWritableDirectory (manageBDD.cpp:96-124). */
    method CopyDatabaseToWritableDirectory(dbName: string)
      requires Valid()
      modifies this, fs
      ensures Valid()
      ensures Model() == BddModel.CopyStep(old(Model()), host, dbName)
    {
      if databasePath == "" {
        databasePath := BddModel.PlatformBase(host);
        if !fs.Exists(databasePath) {
          fs.MkPath(databasePath);
        }
      }
      var file := databasePath + "/" + dbName;
      if !fs.Exists(file) {
        var template := applicationPath + "/databases/" + dbName;
        if fs.Exists(template) {
          var copied := fs.Copy(template, file);
          trace := trace + [Copy(template, file)];
        }
      }
      nameToPathHash := nameToPathHash[dbName := file];
      localDBName := nameToPathHash[dbName];
    }

    /** executeSQLQuery (manageBDD.cpp:131-154): switch databases if needed, run the query, emit one result. */
    method ExecuteSqlQuery(query: string, sender: ObjectRef, id: int, dbName: string, data: ObjectRef, engine: Engine)
      requires Valid()
      modifies this, dataBase, fs
      ensures Valid()
      ensures Model() == BddModel.ExecuteStep(old(Model()), host, engine, Request(query, sender, id, dbName, data))
      ensures previousDbName == dbName
      ensures |emitted| == |old(emitted)| + 1 && emitted[..|old(emitted)|] == old(emitted)
      ensures var e := emitted[|old(emitted)|]; e.receiver == sender && e.id == id && e.data == data
    {
      var results: seq<Record> := [];
      if dbName != previousDbName {
        dataBase.Close();
        trace := trace + [Close];
        var reopened := OpenDatabase(dbName, engine);
        previousDbName := dbName;
        trace := trace + [Pragma];
      }
      if dataBase.isOpen {
        var outcome := engine.run(dataBase.databaseName, query);
        trace := trace + [Exec(query)];
        results := FetchResults(outcome);
        assert results == BddModel.ResultList(true, outcome);
      }
      emitted := emitted + [Emission(results, sender, id, data)];
    }

    /** The destructor's close-if-open (manageBDD.cpp:39-42). */
    method Destroy()
      modifies this, dataBase
      ensures Model() == BddModel.DestroyStep(old(Model()))
      ensures !dataBase.isOpen
    {
      if dataBase.isOpen {
        dataBase.Close();
        trace := trace + [Close];
      }
    }
  }
}

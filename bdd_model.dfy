/**
 * The ManageBDD worker as a state machine on values. Each function below is
 * one step of manageBDD.cpp; the class in manage_bdd.dfy is proved to change
 * its fields exactly as these functions say, and bdd_properties.dfy proves
 * what the steps promise.
 */
module BddModel {
  import opened BddTypes

  /**
   * The worker's fields (`localDBName`, `previousDbName`, `databasePath`,
   * `nameToPathHash`), the connection's database name and open flag, the set
   * of paths on disk as this worker sees them (changed only by its own mkpath,
   * copy and open), the events so far and the signals emitted.
   */
  datatype State = State(
    localDBName: string,
    previousDbName: string,
    databasePath: string,
    cache: map<string, string>,
    connName: string,
    isOpen: bool,
    paths: set<string>,
    trace: seq<Event>,
    emitted: seq<Emission>)

  /** A freshly constructed worker on a disk holding `paths`. */
  function Initial(paths: set<string>): State
  {
    State("", "", "", map[], "", false, paths, [], [])
  }

  /**
   * `nameToPathHash[name]` on a non-const QHash inserts a default (empty)
   * value when the key is absent; present entries are left alone.
   */
  function Touch(cache: map<string, string>, name: string): (c: map<string, string>)
    ensures c.Keys == cache.Keys + {name}
    ensures forall k :: k in cache ==> c[k] == cache[k]
    ensures name !in cache ==> c[name] == ""
  {
    if name in cache then cache else cache[name := ""]
  }

  /** The base directory each platform computes the first time it resolves a name. */
  function PlatformBase(host: Host): string
  {
    match host.platform
    case Linux => host.currentDir + "/databases/"
    case CopyPlatform => host.dataLocation
    case OtherPlatform => ""
  }

  /** Where the read-only template of `name` lives. */
  function TemplatePath(host: Host, name: string): string
  {
    host.applicationDir + "/databases/" + name
  }

  /** The Linux branch of openDatabase (manageBDD.cpp:76-79). */
  function LinuxStep(s: State, host: Host, name: string): State
  {
    var base := if s.databasePath == "" then PlatformBase(host) else s.databasePath;
    var path := base + name;
    s.(databasePath := base, cache := s.cache[name := path], localDBName := path)
  }

  /** copyDatabaseToWritableDirectory (manageBDD.cpp:96-124). */
  function CopyStep(s: State, host: Host, name: string): State
  {
    var base := if s.databasePath == "" then PlatformBase(host) else s.databasePath;
    var made := if s.databasePath == "" then s.paths + {base} else s.paths;
    var file := base + "/" + name;
    var template := TemplatePath(host, name);
    var copies := file !in made && template in made;
    s.(databasePath := base,
       paths := if copies then made + {file} else made,
       trace := if copies then s.trace + [Copy(template, file)] else s.trace,
       cache := s.cache[name := file],
       localDBName := file)
  }

  /** The path resolution at the head of openDatabase (manageBDD.cpp:56-81). */
  function ResolveStep(s: State, host: Host, name: string): State
  {
    var cache := Touch(s.cache, name);
    var s1 := s.(cache := cache, localDBName := cache[name]);
    if s1.localDBName != "" then s1
    else match host.platform
      case Linux => LinuxStep(s1, host, name)
      case CopyPlatform => CopyStep(s1, host, name)
      case OtherPlatform => s1
  }

  /**
   * The disk after the connection opens `path`: the SQLite driver opens for
   * reading and writing and creates a missing file, so a successful open of a
   * named file leaves it on disk (the empty name opens a temporary database).
   */
  function AfterOpen(paths: set<string>, path: string, ok: bool): set<string>
  {
    if ok && path != "" then paths + {path} else paths
  }

  /** openDatabase (manageBDD.cpp:53-94); its return value is the new `isOpen`. */
  function OpenStep(s: State, host: Host, engine: Engine, name: string): State
  {
    var s1 := ResolveStep(s, host, name);
    var ok := engine.opens(s1.localDBName);
    s1.(connName := s1.localDBName,
        isOpen := ok,
        paths := AfterOpen(s1.paths, s1.localDBName, ok),
        trace := s1.trace + [Open(s1.localDBName)])
  }

  /** The connection switch at the head of executeSQLQuery (manageBDD.cpp:134-141). */
  function SwitchStep(s: State, host: Host, engine: Engine, name: string): State
  {
    if name == s.previousDbName then s
    else
      var closed := s.(isOpen := false, trace := s.trace + [Close]);
      var reopened := OpenStep(closed, host, engine, name);
      reopened.(previousDbName := name, trace := reopened.trace + [Pragma])
  }

  /** The list executeSQLQuery emits for a connection that is or is not open (manageBDD.cpp:142-152). */
  function ResultList(isOpen: bool, o: Outcome): seq<Record>
  {
    if isOpen then [o.header] + Fetched(o) else []
  }

  /** executeSQLQuery (manageBDD.cpp:131-154). */
  function ExecuteStep(s: State, host: Host, engine: Engine, req: Request): (r: State)
    ensures r.previousDbName == req.dbName
    ensures |r.emitted| == |s.emitted| + 1 && r.emitted[..|s.emitted|] == s.emitted
    ensures var e := r.emitted[|s.emitted|];
      e.receiver == req.sender && e.id == req.id && e.data == req.data
  {
    var s1 := SwitchStep(s, host, engine, req.dbName);
    var o := engine.run(s1.connName, req.query);
    s1.(trace := if s1.isOpen then s1.trace + [Exec(req.query)] else s1.trace,
        emitted := s1.emitted + [Emission(ResultList(s1.isOpen, o), req.sender, req.id, req.data)])
  }

  /** The destructor's close-if-open (manageBDD.cpp:41-42). */
  function DestroyStep(s: State): State
  {
    if s.isOpen then s.(isOpen := false, trace := s.trace + [Close]) else s
  }

  /** The worker serving `calls` one after the other, in order. */
  function Run(s: State, host: Host, calls: seq<Call>): State
    decreases |calls|
  {
    if calls == [] then s
    else Run(ExecuteStep(s, host, calls[0].engine, calls[0].request), host, calls[1..])
  }
}

/**
 * What the steps of the ManageBDD worker promise: about one request, about
 * one path resolution, and about any run of requests.
 */
module BddProperties {
  import opened BddTypes
  import opened BddModel

  /** A resolution found a usable cached path for `name` (manageBDD.cpp:59). */
  predicate CacheHit(cache: map<string, string>, name: string)
  {
    name in cache && cache[name] != ""
  }

  /** The events executeSQLQuery adds after the connection switch. */
  function ExecEvents(isOpen: bool, query: string): seq<Event>
  {
    if isOpen then [Exec(query)] else []
  }

  /**
   * The events of a request that switches databases: Close, at most one Copy
   * whose destination is the new path, Open of that path, Pragma, and then
   * the execution if the connection opened.
   */
  predicate SwitchShape(d: seq<Event>, path: string, isOpen: bool, query: string)
  {
    var tail := [Open(path), Pragma] + ExecEvents(isOpen, query);
    d == [Close] + tail || (|d| >= 2 && d[1].Copy? && d[1].to == path && d == [Close, d[1]] + tail)
  }

  // ---------------------------------------------------------------------------
  // One request
  // ---------------------------------------------------------------------------

  /** A fresh worker asked for database "" opens nothing and answers with an empty list. */
  lemma FreshInstanceEmptyName(paths: set<string>, host: Host, engine: Engine, req: Request)
    requires req.dbName == ""
    ensures var r := ExecuteStep(Initial(paths), host, engine, req);
      && r.trace == [] && !r.isOpen && r.cache == map[] && r.paths == paths
      && r.databasePath == "" && r.localDBName == ""
      && r.emitted == [Emission([], req.sender, req.id, req.data)]
  {
  }

  /** Two consecutive requests for the same name: nothing is closed, resolved, copied or reopened. */
  lemma SameNameKeepsConnection(s: State, host: Host, engine: Engine, req: Request)
    requires req.dbName == s.previousDbName
    ensures var r := ExecuteStep(s, host, engine, req);
      && r.isOpen == s.isOpen && r.connName == s.connName
      && r.localDBName == s.localDBName && r.databasePath == s.databasePath
      && r.cache == s.cache && r.paths == s.paths
      && r.trace == s.trace + ExecEvents(s.isOpen, req.query)
  {
  }

  /** A request for a different name closes, then opens the resolved path, then issues the pragma, before executing. */
  lemma SwitchOrder(s: State, host: Host, engine: Engine, req: Request)
    requires req.dbName != s.previousDbName
    ensures var r := ExecuteStep(s, host, engine, req);
      && |s.trace| <= |r.trace| && r.trace[..|s.trace|] == s.trace
      && SwitchShape(r.trace[|s.trace|..], r.connName, r.isOpen, req.query)
      && r.connName == r.localDBName
      && r.isOpen == engine.opens(r.localDBName)
      && r.localDBName == ResolveStep(s, host, req.dbName).localDBName
  {
    var closed := s.(isOpen := false, trace := s.trace + [Close]);
    var s1 := ResolveStep(closed, host, req.dbName);
    var r := ExecuteStep(s, host, engine, req);
    var tail := [Open(s1.localDBName), Pragma] + ExecEvents(r.isOpen, req.query);
    assert r.trace == s1.trace + tail;
    ResolveTraceShape(closed, host, req.dbName);
    if s1.trace == closed.trace {
      assert r.trace == s.trace + ([Close] + tail);
    } else {
      var c := s1.trace[|closed.trace|];
      assert r.trace == s.trace + ([Close, c] + tail);
    }
    ResolveIgnoresTraceAndOpen(s, closed, host, req.dbName);
  }

  /** Resolution reads neither the trace nor the connection, so closing first does not change where it leads. */
  lemma ResolveIgnoresTraceAndOpen(s: State, t: State, host: Host, name: string)
    requires t == s.(isOpen := t.isOpen, trace := t.trace)
    ensures ResolveStep(t, host, name).localDBName == ResolveStep(s, host, name).localDBName
    ensures ResolveStep(t, host, name).cache == ResolveStep(s, host, name).cache
    ensures ResolveStep(t, host, name).paths == ResolveStep(s, host, name).paths
    ensures ResolveStep(t, host, name).databasePath == ResolveStep(s, host, name).databasePath
  {
  }

  /** A resolution adds to the trace nothing, or one Copy into the resolved path, whose destination did not exist before. */
  lemma ResolveTraceShape(s: State, host: Host, name: string)
    ensures var r := ResolveStep(s, host, name);
      || (r.trace == s.trace && r.paths >= s.paths)
      || (&& |r.trace| == |s.trace| + 1 && r.trace[..|s.trace|] == s.trace
          && r.trace[|s.trace|].Copy? && r.trace[|s.trace|].to == r.localDBName
          && r.trace[|s.trace|].to !in s.paths
          && r.localDBName in r.paths && r.paths >= s.paths)
  {
  }

  /**
   * The emitted list: empty if the connection is not open after the switch;
   * otherwise the header record followed by every fetched row in fetch
   * order, so one longer than the row count, and just the header when exec fails.
   */
  lemma ExecuteResultList(s: State, host: Host, engine: Engine, req: Request)
    ensures var s1 := SwitchStep(s, host, engine, req.dbName);
      var o := engine.run(s1.connName, req.query);
      var res := ExecuteStep(s, host, engine, req).emitted[|s.emitted|].results;
      && (!s1.isOpen ==> res == [])
      && (s1.isOpen ==> |res| == |Fetched(o)| + 1 && res[0] == o.header && res[1..] == Fetched(o))
      && (s1.isOpen && o.ExecFailed? ==> res == [o.header])
  {
  }

  /**
   * A failed open is remembered as the current name: the next request for
   * the same name does not retry it and is answered with an empty list.
   */
  lemma FailedOpenNotRetried(s: State, host: Host, e1: Engine, e2: Engine, r1: Request, r2: Request)
    requires r1.dbName == r2.dbName
    ensures var a := ExecuteStep(s, host, e1, r1);
      var b := ExecuteStep(a, host, e2, r2);
      !a.isOpen ==> b.trace == a.trace && !b.isOpen && b.emitted[|a.emitted|].results == []
  {
    var a := ExecuteStep(s, host, e1, r1);
    SameNameKeepsConnection(a, host, e2, r2);
  }

  /** The row `SELECT 1 AS value1` returns. */
  function ValueOneRow(): Record
  {
    Record([Field("value1", IntValue(1))])
  }

  /**
   * An engine on which every path opens and only `SELECT 1 AS value1` on
   * `path` succeeds, returning its one row; any other query fails.
   */
  function SelectOneEngine(path: string, header: Record): Engine
  {
    Engine(p => true,
           (p, q) => if p == path && q == "SELECT 1 AS value1" then Executed(header, [ValueOneRow()])
                     else ExecFailed(Record([])))
  }

  /**
   * `SELECT 1 AS value1` on "test.db" from a fresh Linux worker, with id 7
   * and null data: one result carrying 7 and null, holding the header record
   * and then the row { value1: 1 }; the opened file is left on disk.
   */
  lemma SelectOneOnFreshWorker(paths: set<string>, header: Record)
    ensures var host := Host(Linux, "/opt/app", "/home/user", "/home/user/.local/share/app");
      var engine := SelectOneEngine("/home/user/databases/test.db", header);
      var req := Request("SELECT 1 AS value1", Ref(1), 7, "test.db", NullRef);
      var r := ExecuteStep(Initial(paths), host, engine, req);
      && r.connName == "/home/user/databases/test.db" && r.isOpen
      && r.trace == [Close, Open("/home/user/databases/test.db"), Pragma, Exec("SELECT 1 AS value1")]
      && r.emitted == [Emission([header, ValueOneRow()], Ref(1), 7, NullRef)]
      && r.paths == paths + {"/home/user/databases/test.db"}
  {
    var host := Host(Linux, "/opt/app", "/home/user", "/home/user/.local/share/app");
    var path := "/home/user/databases/test.db";
    var engine := SelectOneEngine(path, header);
    var s := Initial(paths);
    assert "/home/user" + "/databases/" + "test.db" == path;
    var closed := s.(isOpen := false, trace := [Close]);
    assert ResolveStep(closed, host, "test.db").localDBName == path;
    var s1 := SwitchStep(s, host, engine, "test.db");
    assert s1.isOpen && s1.connName == path;
    assert s1.trace == [Close, Open(path), Pragma];
    assert engine.run(path, "SELECT 1 AS value1") == Executed(header, [ValueOneRow()]);
    assert ResultList(true, Executed(header, [ValueOneRow()])) == [header, ValueOneRow()];
  }

  /**
   * On a copy platform with no template, a successful open creates an empty
   * file at the destination. A later worker on any disk still holding that
   * file finds the destination present and never copies the template, even
   * if the template has appeared since.
   */
  lemma CreatedFileBlocksLaterCopy(paths: set<string>, host: Host, engine: Engine, req: Request)
    requires host.platform == CopyPlatform && req.dbName != ""
    requires TemplatePath(host, req.dbName) !in paths + {host.dataLocation}
    ensures var r := ExecuteStep(Initial(paths), host, engine, req);
      var dest := host.dataLocation + "/" + req.dbName;
      && r.connName == dest
      && (forall i :: 0 <= i < |r.trace| ==> !r.trace[i].Copy?)
      && (r.isOpen ==> dest in r.paths)
      && (r.isOpen ==> forall later: set<string> :: later >= r.paths ==>
            ResolveStep(Initial(later), host, req.dbName).trace == [])
  {
    var s := Initial(paths);
    var closed := s.(isOpen := false, trace := [Close]);
    CopyOnFirstUse(closed, host, req.dbName);
    var r := ExecuteStep(s, host, engine, req);
    var dest := host.dataLocation + "/" + req.dbName;
    assert ResolveStep(closed, host, req.dbName).trace == [Close];
    assert r.trace == [Close, Open(dest), Pragma] + ExecEvents(r.isOpen, req.query);
    forall later: set<string> | r.isOpen && later >= r.paths
      ensures ResolveStep(Initial(later), host, req.dbName).trace == []
    {
      CopyOnFirstUse(Initial(later), host, req.dbName);
    }
  }

  // ---------------------------------------------------------------------------
  // Path resolution
  // ---------------------------------------------------------------------------

  /** A cache hit opens the cached path unchanged: no copy, no new base path, no cache change. */
  lemma CacheHitReused(s: State, host: Host, engine: Engine, name: string)
    requires CacheHit(s.cache, name)
    ensures var r := OpenStep(s, host, engine, name);
      && r.localDBName == s.cache[name] && r.connName == s.cache[name]
      && r.cache == s.cache && r.databasePath == s.databasePath
      && r.paths == AfterOpen(s.paths, s.cache[name], r.isOpen)
      && r.trace == s.trace + [Open(s.cache[name])]
      && r.isOpen == engine.opens(s.cache[name])
  {
  }

  /** A resolution adds the name as a key and keeps every non-empty entry as it was. */
  lemma ResolveKeepsEntries(s: State, host: Host, name: string)
    ensures var r := ResolveStep(s, host, name);
      && r.cache.Keys == s.cache.Keys + {name}
      && forall k :: CacheHit(s.cache, k) ==> r.cache[k] == s.cache[k]
  {
  }

  /**
   * A cache miss: the base path is computed only while it is empty; the path
   * is base + name on Linux and base + "/" + name on a copy platform, and it
   * is cached whether or not a file was copied.
   */
  lemma ResolveMiss(s: State, host: Host, name: string)
    requires !CacheHit(s.cache, name)
    ensures var r := ResolveStep(s, host, name);
      && r.databasePath == (if s.databasePath == "" then PlatformBase(host) else s.databasePath)
      && (host.platform == Linux ==> r.localDBName == r.databasePath + name)
      && (host.platform == CopyPlatform ==> r.localDBName == r.databasePath + "/" + name)
      && (host.platform == OtherPlatform ==> r.localDBName == "")
      && r.cache[name] == r.localDBName
      && (host.platform != CopyPlatform ==> r.paths == s.paths && r.trace == s.trace)
  {
  }

  /**
   * Copy on first use: the template is copied exactly when the destination
   * is absent and the template present; afterwards the destination exists
   * exactly when it existed or the template did.
   */
  lemma CopyOnFirstUse(s: State, host: Host, name: string)
    requires host.platform == CopyPlatform && !CacheHit(s.cache, name)
    ensures var r := ResolveStep(s, host, name);
      var before := if s.databasePath == "" then s.paths + {host.dataLocation} else s.paths;
      var template := TemplatePath(host, name);
      var copies := r.localDBName !in before && template in before;
      && r.trace == s.trace + (if copies then [Copy(template, r.localDBName)] else [])
      && r.paths == before + (if copies then {r.localDBName} else {})
      && (r.localDBName in r.paths <==> r.localDBName in before || template in before)
  {
  }

  /** On Linux and on copy platforms a resolution always leaves a non-empty cached path. */
  lemma ResolvedPathCached(s: State, host: Host, name: string)
    requires host.platform != OtherPlatform
    ensures var r := ResolveStep(s, host, name);
      CacheHit(r.cache, name) && r.cache[name] == r.localDBName
  {
    var r := ResolveStep(s, host, name);
    if !CacheHit(s.cache, name) {
      ResolveMiss(s, host, name);
      assert |r.localDBName| >= |name| + 1;
    }
  }

  /** Resolving the same name twice changes nothing the second time: same path, no copy. */
  lemma ResolveIdempotent(s: State, host: Host, name: string)
    ensures ResolveStep(ResolveStep(s, host, name), host, name) == ResolveStep(s, host, name)
  {
    if host.platform != OtherPlatform {
      ResolvedPathCached(s, host, name);
    }
  }

  // ---------------------------------------------------------------------------
  // Runs of requests
  // ---------------------------------------------------------------------------

  /** Every request keeps the cache's keys and its non-empty entries. */
  lemma ExecuteKeepsEntries(s: State, host: Host, engine: Engine, req: Request)
    ensures var r := ExecuteStep(s, host, engine, req);
      && s.cache.Keys <= r.cache.Keys
      && forall k :: CacheHit(s.cache, k) ==> r.cache[k] == s.cache[k]
  {
    if req.dbName != s.previousDbName {
      var closed := s.(isOpen := false, trace := s.trace + [Close]);
      ResolveKeepsEntries(closed, host, req.dbName);
    }
  }

  /** Over any run, the cache only grows and a non-empty entry is never changed or removed. */
  lemma {:induction false} RunKeepsEntries(s: State, host: Host, calls: seq<Call>)
    ensures var r := Run(s, host, calls);
      && s.cache.Keys <= r.cache.Keys
      && forall k :: CacheHit(s.cache, k) ==> r.cache[k] == s.cache[k]
    decreases |calls|
  {
    if calls != [] {
      var s' := ExecuteStep(s, host, calls[0].engine, calls[0].request);
      ExecuteKeepsEntries(s, host, calls[0].engine, calls[0].request);
      RunKeepsEntries(s', host, calls[1..]);
    }
  }

  /** Every request leaves the base path alone, or sets it from empty to the platform's base. */
  lemma ExecuteSetsBaseOnce(s: State, host: Host, engine: Engine, req: Request)
    ensures var r := ExecuteStep(s, host, engine, req);
      r.databasePath == s.databasePath || (s.databasePath == "" && r.databasePath == PlatformBase(host))
  {
  }

  /** Over any run, `databasePath` is assigned at most once, and only while it is empty. */
  lemma {:induction false} RunSetsBaseOnce(s: State, host: Host, calls: seq<Call>)
    ensures var r := Run(s, host, calls);
      r.databasePath == s.databasePath || (s.databasePath == "" && r.databasePath == PlatformBase(host))
    decreases |calls|
  {
    if calls != [] {
      var s' := ExecuteStep(s, host, calls[0].engine, calls[0].request);
      ExecuteSetsBaseOnce(s, host, calls[0].engine, calls[0].request);
      RunSetsBaseOnce(s', host, calls[1..]);
    }
  }

  /** `e` echoes the sender, id and data of `req`. */
  predicate Echoes(e: Emission, req: Request)
  {
    e.receiver == req.sender && e.id == req.id && e.data == req.data
  }

  /** One emission echoing `calls[0]`, followed by emissions echoing the rest, echo all of `calls`. */
  lemma EchoPrefix(a: seq<Emission>, b: seq<Emission>, c: seq<Emission>, calls: seq<Call>)
    requires |calls| > 0
    requires |b| == |a| + 1 && b[..|a|] == a && Echoes(b[|a|], calls[0].request)
    requires |c| == |b| + |calls| - 1 && c[..|b|] == b
    requires forall i :: 0 <= i < |calls| - 1 ==> Echoes(c[|b| + i], calls[1..][i].request)
    ensures |c| == |a| + |calls| && c[..|a|] == a
    ensures forall i :: 0 <= i < |calls| ==> Echoes(c[|a| + i], calls[i].request)
  {
    assert c[..|a|] == c[..|b|][..|a|];
    forall i | 0 <= i < |calls|
      ensures Echoes(c[|a| + i], calls[i].request)
    {
      if i > 0 {
        assert calls[i] == calls[1..][i - 1];
        assert c[|a| + i] == c[|b| + (i - 1)];
      } else {
        assert c[|a|] == c[..|b|][|a|];
      }
    }
  }

  /** Over any run, exactly one result is emitted per request, in order, echoing its sender, id and data. */
  lemma {:induction false} RunEchoesEveryRequest(s: State, host: Host, calls: seq<Call>)
    ensures var r := Run(s, host, calls);
      && |r.emitted| == |s.emitted| + |calls|
      && r.emitted[..|s.emitted|] == s.emitted
      && forall i :: 0 <= i < |calls| ==> Echoes(r.emitted[|s.emitted| + i], calls[i].request)
    decreases |calls|
  {
    if calls != [] {
      var s' := ExecuteStep(s, host, calls[0].engine, calls[0].request);
      RunEchoesEveryRequest(s', host, calls[1..]);
      assert Run(s, host, calls) == Run(s', host, calls[1..]);
      EchoPrefix(s.emitted, s'.emitted, Run(s', host, calls[1..]).emitted, calls);
    }
  }

  /** Every Copy recorded so far has a destination that now exists. */
  ghost predicate CopiesLanded(s: State)
  {
    forall i :: 0 <= i < |s.trace| && s.trace[i].Copy? ==> s.trace[i].to in s.paths
  }

  /** No two Copy events of a trace share a destination. */
  ghost predicate CopyTargetsDistinct(t: seq<Event>)
  {
    forall i, j :: 0 <= i < j < |t| && t[i].Copy? && t[j].Copy? ==> t[i].to != t[j].to
  }

  /** A request keeps both copy invariants. */
  lemma ExecuteKeepsCopiesDistinct(s: State, host: Host, engine: Engine, req: Request)
    requires CopiesLanded(s) && CopyTargetsDistinct(s.trace)
    ensures var r := ExecuteStep(s, host, engine, req);
      CopiesLanded(r) && CopyTargetsDistinct(r.trace)
  {
    var r := ExecuteStep(s, host, engine, req);
    if req.dbName != s.previousDbName {
      var closed := s.(isOpen := false, trace := s.trace + [Close]);
      var s1 := ResolveStep(closed, host, req.dbName);
      ResolveTraceShape(closed, host, req.dbName);
      var tail := [Open(s1.localDBName), Pragma] + ExecEvents(r.isOpen, req.query);
      assert r.trace == s1.trace + tail;
      assert r.paths >= s1.paths;
      var n := |closed.trace|;
      assert forall i :: 0 <= i < |tail| ==> !tail[i].Copy?;
      assert forall i :: 0 <= i < n ==> r.trace[i] == closed.trace[i];
      assert forall i :: n <= i < |r.trace| && r.trace[i].Copy? ==> i == n && s1.trace != closed.trace;
      if s1.trace != closed.trace {
        assert r.trace[n] == s1.trace[n];
        assert r.trace[n].to !in s.paths;
      }
    }
  }

  /** Over any run that starts with the copy invariants, no destination is ever copied to twice. */
  lemma {:induction false} RunCopiesOnce(s: State, host: Host, calls: seq<Call>)
    requires CopiesLanded(s) && CopyTargetsDistinct(s.trace)
    ensures var r := Run(s, host, calls);
      CopiesLanded(r) && CopyTargetsDistinct(r.trace)
    decreases |calls|
  {
    if calls != [] {
      var s' := ExecuteStep(s, host, calls[0].engine, calls[0].request);
      ExecuteKeepsCopiesDistinct(s, host, calls[0].engine, calls[0].request);
      RunCopiesOnce(s', host, calls[1..]);
    }
  }

  /** From a fresh worker, any run copies each template to each destination at most once. */
  lemma FreshRunCopiesOnce(paths: set<string>, host: Host, calls: seq<Call>)
    ensures CopyTargetsDistinct(Run(Initial(paths), host, calls).trace)
  {
    RunCopiesOnce(Initial(paths), host, calls);
  }

  // ---------------------------------------------------------------------------
  // At most one connection open
  // ---------------------------------------------------------------------------

  /** What replaying connection events tells: an Open while a connection may be open, or whether one may be. */
  datatype Tracking = Violated | Tracked(mayBeOpen: bool)

  /** Replays a trace, starting with a connection that may (or may not) be open. */
  function Replay(t: seq<Event>, mayBeOpen: bool): Tracking
    decreases |t|
  {
    if t == [] then Tracked(mayBeOpen)
    else match t[0]
      case Close => Replay(t[1..], false)
      case Open(_) => if mayBeOpen then Violated else Replay(t[1..], true)
      case _ => Replay(t[1..], mayBeOpen)
  }

  /** Replaying a concatenation replays the second part from where the first left off. */
  lemma {:induction false} ReplayAppend(a: seq<Event>, b: seq<Event>, m: bool)
    ensures Replay(a + b, m) == match Replay(a, m) case Violated => Violated case Tracked(m') => Replay(b, m')
    decreases |a|
  {
    if a != [] {
      assert (a + b)[1..] == a[1..] + b;
      match a[0]
      case Close => ReplayAppend(a[1..], b, false);
      case Open(_) => if !m { ReplayAppend(a[1..], b, true); }
      case Pragma => ReplayAppend(a[1..], b, m);
      case Copy(_, _) => ReplayAppend(a[1..], b, m);
      case Exec(_) => ReplayAppend(a[1..], b, m);
    } else {
      assert a + b == b;
    }
  }

  /** Every Open of a trace that replays without violation comes after a Close, or opens from a closed start. */
  lemma {:induction false} ReplayCloseBeforeOpen(t: seq<Event>, m: bool)
    requires Replay(t, m).Tracked?
    ensures forall i, j :: 0 <= i < j < |t| && t[i].Open? && t[j].Open? ==> Close in t[i + 1..j]
    ensures m ==> forall j :: 0 <= j < |t| && t[j].Open? ==> Close in t[..j]
    decreases |t|
  {
    if t != [] {
      var m' := match t[0] case Close => false case Open(_) => true case _ => m;
      assert Replay(t, m) == Replay(t[1..], m');
      ReplayCloseBeforeOpen(t[1..], m');
      forall i, j | 0 <= i < j < |t| && t[i].Open? && t[j].Open?
        ensures Close in t[i + 1..j]
      {
        if i == 0 {
          assert t[1..][j - 1] == t[j];
          assert t[1..][..j - 1] == t[i + 1..j];
        } else {
          assert t[1..][i - 1] == t[i] && t[1..][j - 1] == t[j];
          assert t[1..][i..j - 1] == t[i + 1..j];
        }
      }
      if m {
        forall j | 0 <= j < |t| && t[j].Open?
          ensures Close in t[..j]
        {
          if t[0] == Close {
            assert t[..j][0] == Close;
          } else {
            assert !t[0].Open?;
            assert t[1..][j - 1] == t[j];
            assert t[1..][..j - 1] == t[1..j];
            assert t[..j] == [t[0]] + t[1..j];
          }
        }
      }
    }
  }

  /** The connection discipline: no double Open so far, and an open connection is one replay knows of. */
  predicate Disciplined(s: State)
  {
    Replay(s.trace, false).Tracked? && (s.isOpen ==> Replay(s.trace, false).mayBeOpen)
  }

  /** The events of a database switch replay to a connection that may be open, without violation. */
  lemma ReplaySwitch(d: seq<Event>, path: string, isOpen: bool, query: string, m: bool)
    requires SwitchShape(d, path, isOpen, query)
    ensures Replay(d, m) == Tracked(true)
  {
    var x := ExecEvents(isOpen, query);
    var tail := [Open(path), Pragma] + x;
    assert Replay(x, true) == Tracked(true) by {
      if isOpen { assert x[1..] == []; }
    }
    assert tail[1..] == [Pragma] + x;
    assert ([Pragma] + x)[1..] == x;
    assert Replay(tail, false) == Tracked(true);
    if d == [Close] + tail {
      assert d[1..] == tail;
    } else {
      assert d[1..][1..] == tail;
    }
  }

  /** Every request keeps the connection discipline. */
  lemma ExecuteKeepsDiscipline(s: State, host: Host, engine: Engine, req: Request)
    requires Disciplined(s)
    ensures Disciplined(ExecuteStep(s, host, engine, req))
  {
    var r := ExecuteStep(s, host, engine, req);
    var m := Replay(s.trace, false).mayBeOpen;
    var d: seq<Event>;
    if req.dbName == s.previousDbName {
      SameNameKeepsConnection(s, host, engine, req);
      d := ExecEvents(s.isOpen, req.query);
      assert Replay(d, m) == Tracked(m) by {
        if d != [] { assert d[1..] == []; }
      }
    } else {
      SwitchOrder(s, host, engine, req);
      d := r.trace[|s.trace|..];
      ReplaySwitch(d, r.connName, r.isOpen, req.query, m);
    }
    assert r.trace == s.trace + d;
    ReplayAppend(s.trace, d, false);
  }

  /** Over any run from a disciplined state, no Open ever happens while a connection may be open. */
  lemma {:induction false} RunKeepsDiscipline(s: State, host: Host, calls: seq<Call>)
    requires Disciplined(s)
    ensures Disciplined(Run(s, host, calls))
    decreases |calls|
  {
    if calls != [] {
      var s' := ExecuteStep(s, host, calls[0].engine, calls[0].request);
      ExecuteKeepsDiscipline(s, host, calls[0].engine, calls[0].request);
      RunKeepsDiscipline(s', host, calls[1..]);
    }
  }

  /**
   * From a fresh worker, any run followed by the destructor leaves no
   * connection open, and between any two Opens of its trace there is a Close.
   */
  lemma FreshRunOneConnection(paths: set<string>, host: Host, calls: seq<Call>)
    ensures var r := DestroyStep(Run(Initial(paths), host, calls));
      && !r.isOpen
      && forall i, j :: 0 <= i < j < |r.trace| && r.trace[i].Open? && r.trace[j].Open? ==> Close in r.trace[i + 1..j]
  {
    var s := Run(Initial(paths), host, calls);
    RunKeepsDiscipline(Initial(paths), host, calls);
    var r := DestroyStep(s);
    if s.isOpen {
      ReplayAppend(s.trace, [Close], false);
      assert Replay([Close], true) == Tracked(false) by { assert [Close][1..] == []; }
    }
    ReplayCloseBeforeOpen(r.trace, false);
  }

  /** The destructor closes the connection if and only if it is open, and leaves it closed. */
  lemma DestroyClosesIffOpen(s: State)
    ensures var r := DestroyStep(s);
      && !r.isOpen
      && (r.trace == s.trace + [Close] <==> s.isOpen)
      && (!s.isOpen ==> r.trace == s.trace)
  {
    var r := DestroyStep(s);
    if !s.isOpen {
      assert |r.trace| != |s.trace + [Close]|;
    }
  }
}

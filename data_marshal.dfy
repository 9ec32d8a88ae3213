/**
 * DataMarshal: captures the whole state of the application (its relational
 * database and its search index) into one archive, and restores it.
 *
 * The database dumper, the search-index dumper and the archive codec are
 * not modelled; every call the marshaller makes on one of them is recorded
 * as an Event in the order it is made. What the marshaller reads from its
 * surroundings (the Rails root and environment, the clock, whether the
 * target file exists and when it was last modified) is passed in.
 */
module Marshalling {
  import opened Wrappers
  import RubyFile
  import Strftime

  /** The value of the :use_cache option; it is a Ruby value of any kind. */
  datatype RubyValue = Nil | Bool(b: bool) | Str(s: string) | Num(n: int)

  /** The options hash given to the constructor; an absent key reads as nil. */
  datatype Options = Options(
    filename: Option<string>,
    dumpDir: Option<string>,
    sqlFilename: Option<string>,
    solrFilename: Option<string>,
    useCache: RubyValue)

  /** `{}`: the options the class-level dump, dump_cached and restore use. */
  const NoOptions := Options(None, None, None, None, Nil)

  /** The five fields of a marshaller. */
  datatype Config = Config(
    filename: Option<string>,
    dumpDir: string,
    sqlFilename: string,
    solrFilename: string,
    useCache: bool)

  /** What dump reads from the process and the file system. */
  datatype Env = Env(
    railsEnv: string,             // RAILS_ENV
    stamp: string,                // Time.now.strftime('%Y-%m-%d@%H%M%S')
    now: real,                    // Time.now, in seconds
    mtimes: map<string, real>)    // File.mtime of every existing file, in seconds

  /** An entry of an archive: the file to pack and the name it is packed as. */
  datatype Entry = Entry(filename: string, name: string)

  /** One call on a collaborator. */
  datatype Event =
    | Mkdir(dir: string)                              // FileUtils.mkdir_p
    | DbDump(path: string)                            // DbMarshal.dump
    | SolrDump(path: string)                          // SolrMarshal.dump
    | TgzCreate(target: string, entries: seq<Entry>)  // EasyTgz.create
    | TgzExtract(archive: Option<string>, dir: string) // EasyTgz.extract
    | DbRestore(path: string)                         // DbMarshal.restore
    | SolrRestore(path: string)                       // SolrMarshal.restore

  datatype Error = ArgumentError(message: string)

  /** An existing archive younger than this many seconds is reused. */
  const FreshnessWindow: real := 60.0

  /** Ruby's `given || fallback` where `given` is a string or nil. */
  function Or(given: Option<string>, fallback: string): (r: string)
    ensures given.Some? ==> r == given.value
    ensures given.None? ==> r == fallback
  {
    match given
    case Some(v) => v
    case None => fallback
  }

  /** The configuration the constructor derives from its options. */
  function Configure(opts: Options, railsRoot: string): (c: Config)
    ensures c.filename == opts.filename
    ensures opts.dumpDir.Some? ==> c.dumpDir == opts.dumpDir.value
    ensures opts.dumpDir.None? ==> c.dumpDir == railsRoot + "/tmp/dumps"
    ensures opts.sqlFilename.Some? ==> c.sqlFilename == opts.sqlFilename.value
    ensures opts.sqlFilename.None? ==> c.sqlFilename == c.dumpDir + "/current.sql"
    ensures opts.solrFilename.Some? ==> c.solrFilename == opts.solrFilename.value
    ensures opts.solrFilename.None? ==> c.solrFilename == c.dumpDir + "/current.solr"
    ensures c.useCache <==> opts.useCache == Bool(true)
  {
    var dumpDir := Or(opts.dumpDir, railsRoot + "/tmp/dumps");
    Config(
      opts.filename,
      dumpDir,
      Or(opts.sqlFilename, dumpDir + "/current.sql"),
      Or(opts.solrFilename, dumpDir + "/current.solr"),
      opts.useCache == Bool(true))
  }

  /** The archive name generated for environment `railsEnv` at time `stamp`. */
  function DefaultFilename(railsEnv: string, stamp: string): (r: string)
    ensures |r| == |railsEnv| + 1 + |stamp| + 5
    ensures r[..|railsEnv|] == railsEnv && r[|railsEnv|] == '.'
    ensures r[|railsEnv| + 1..|r| - 5] == stamp && r[|r| - 5..] == ".data"
  {
    railsEnv + "." + stamp + ".data"
  }

  /** filename_or_default: the configured archive name, else a generated one. */
  function FilenameOrDefault(filename: Option<string>, railsEnv: string, stamp: string): (r: string)
    ensures filename.Some? ==> r == filename.value
    ensures filename.None? ==> r == DefaultFilename(railsEnv, stamp)
  {
    Or(filename, DefaultFilename(railsEnv, stamp))
  }

  /** The archive dump writes: the argument, else the configured name, else a generated one. */
  function DumpTarget(arg: Option<string>, filename: Option<string>, env: Env): (target: string)
    ensures arg.Some? ==> target == arg.value
    ensures arg.None? && filename.Some? ==> target == filename.value
    ensures arg.None? && filename.None? ==> target == DefaultFilename(env.railsEnv, env.stamp)
  {
    Or(arg, FilenameOrDefault(filename, env.railsEnv, env.stamp))
  }

  /**
   * Whether dump reuses the archive at `target`: caching is on, the file
   * exists, and it was modified less than a minute before now.
   */
  function CacheHit(target: string, useCache: bool, env: Env): (hit: bool)
    ensures hit ==> useCache && target in env.mtimes
    ensures useCache && target in env.mtimes ==>
      (hit <==> env.now - env.mtimes[target] < FreshnessWindow)
  {
    target in env.mtimes && useCache && env.mtimes[target] > env.now - FreshnessWindow
  }

  /** The two files an archive holds, each under its base name. */
  function Entries(c: Config): (es: seq<Entry>)
    ensures |es| == 2
    ensures es[0].filename == c.sqlFilename && es[1].filename == c.solrFilename
    ensures es[0].name == RubyFile.Basename(c.sqlFilename) && es[1].name == RubyFile.Basename(c.solrFilename)
    ensures forall i :: 0 <= i < 2 ==> '/' !in es[i].name || es[i].name == "/"
  {
    [Entry(c.sqlFilename, RubyFile.Basename(c.sqlFilename)),
     Entry(c.solrFilename, RubyFile.Basename(c.solrFilename))]
  }

  /** The calls a dump that does not reuse an archive makes, in order. */
  function DumpCalls(c: Config, target: string): seq<Event>
  {
    [Mkdir(c.dumpDir), DbDump(c.sqlFilename), SolrDump(c.solrFilename), TgzCreate(target, Entries(c))]
  }

  /** The archive restore requires: the argument, else the configured name. */
  function RestoreTarget(arg: Option<string>, filename: Option<string>): (target: Option<string>)
    ensures target.None? <==> arg.None? && filename.None?
    ensures arg.Some? ==> target == arg
    ensures arg.None? ==> target == filename
  {
    if arg.Some? then arg else filename
  }

  /** The calls a restore makes, in order; it extracts its argument as given. */
  function RestoreCalls(c: Config, arg: Option<string>): seq<Event>
  {
    [Mkdir(c.dumpDir), TgzExtract(arg, c.dumpDir), DbRestore(c.sqlFilename), SolrRestore(c.solrFilename)]
  }

  /**
   * The layout restore relies on: each intermediate file lies directly in
   * the dump directory under its base name, so extracting the archive
   * there puts it back where the store reads it; and the two are distinct.
   */
  predicate ExtractsInPlace(c: Config)
  {
    c.dumpDir + "/" + RubyFile.Basename(c.sqlFilename) == c.sqlFilename &&
    c.dumpDir + "/" + RubyFile.Basename(c.solrFilename) == c.solrFilename &&
    c.sqlFilename != c.solrFilename
  }

  /**
   * Unless the intermediate file names are overridden, the archive entries
   * are "current.sql" and "current.solr" and the layout extracts in place,
   * whatever the dump directory is.
   */
  lemma DefaultLayout(opts: Options, railsRoot: string)
    requires opts.sqlFilename.None? && opts.solrFilename.None?
    ensures var c := Configure(opts, railsRoot);
      Entries(c) == [Entry(c.dumpDir + "/current.sql", "current.sql"),
                     Entry(c.dumpDir + "/current.solr", "current.solr")] &&
      ExtractsInPlace(c)
  {
    var c := Configure(opts, railsRoot);
    assert c.sqlFilename == c.dumpDir + "/" + "current.sql";
    assert c.solrFilename == c.dumpDir + "/" + "current.solr";
    RubyFile.BasenameOfJoin(c.dumpDir, "current.sql");
    RubyFile.BasenameOfJoin(c.dumpDir, "current.solr");
    assert |c.sqlFilename| != |c.solrFilename|;
  }

  /**
   * Generated archive names of one environment sort by the wall-clock time
   * they were generated at (for years of at most four digits), and two are
   * equal only when generated in the same wall-clock second.
   */
  lemma DefaultFilenamesSortByTime(railsEnv: string, t1: Strftime.Clock, t2: Strftime.Clock)
    requires Strftime.ValidClock(t1) && Strftime.ValidClock(t2)
    requires t1.year < 10000 && t2.year < 10000
    ensures Strftime.LexLess(DefaultFilename(railsEnv, Strftime.Format(t1)),
                             DefaultFilename(railsEnv, Strftime.Format(t2)))
            <==> Strftime.Before(t1, t2)
    ensures DefaultFilename(railsEnv, Strftime.Format(t1)) == DefaultFilename(railsEnv, Strftime.Format(t2))
            <==> t1 == t2
  {
    var f1, f2 := Strftime.Format(t1), Strftime.Format(t2);
    Strftime.FormatOrder(t1, t2);
    Strftime.LexLessIrreflexive(".data");
    Strftime.LexLessAppend(f1, ".data", f2, ".data");
    Strftime.SeparatorThenRest(railsEnv + ".", f1 + ".data", f2 + ".data");
    assert DefaultFilename(railsEnv, f1) == (railsEnv + ".") + (f1 + ".data");
    assert DefaultFilename(railsEnv, f2) == (railsEnv + ".") + (f2 + ".data");
    if f1 + ".data" == f2 + ".data" {
      assert (f1 + ".data")[..17] == f1 && (f2 + ".data")[..17] == f2;
    }
  }

  class DataMarshal {
    var filename: Option<string>
    var dumpDir: string
    var sqlFilename: string
    var solrFilename: string
    var useCache: bool
    /** Every collaborator call made through this marshaller, oldest first. */
    var trace: seq<Event>

    function AsConfig(): Config
      reads this
    {
      Config(filename, dumpDir, sqlFilename, solrFilename, useCache)
    }

    constructor (opts: Options, railsRoot: string)
      ensures AsConfig() == Configure(opts, railsRoot)
      ensures trace == []
    {
      var c := Configure(opts, railsRoot);
      filename := c.filename;
      dumpDir := c.dumpDir;
      sqlFilename := c.sqlFilename;
      solrFilename := c.solrFilename;
      useCache := c.useCache;
      trace := [];
    }

    /** prepare_dump_dir: create the dump directory and its parents. */
    method PrepareDumpDir()
      modifies this`trace
      ensures trace == old(trace) + [Mkdir(dumpDir)]
    {
      trace := trace + [Mkdir(dumpDir)];
    }

    /**
     * dump: on a cache hit, returns the argument as given (nil when the
     * target was defaulted) and calls nothing; otherwise dumps both stores
     * into the dump directory, packs them into the target and returns it.
     */
    method Dump(arg: Option<string>, env: Env) returns (r: Option<string>)
      modifies this`trace
      ensures var target := DumpTarget(arg, filename, env);
        if CacheHit(target, useCache, env) then r == arg && trace == old(trace)
        else r == Some(target) && trace == old(trace) + DumpCalls(AsConfig(), target)
    {
      var target := DumpTarget(arg, filename, env);
      if CacheHit(target, useCache, env) {
        return arg;
      }
      ghost var before := trace;
      PrepareDumpDir();
      trace := trace + [DbDump(sqlFilename)];
      trace := trace + [SolrDump(solrFilename)];
      var entries := Entries(AsConfig());
      trace := trace + [TgzCreate(target, entries)];
      assert trace == before + DumpCalls(AsConfig(), target);
      return Some(target);
    }

    /** dump_cached: switch caching on for good, then dump. */
    method DumpCached(arg: Option<string>, env: Env) returns (r: Option<string>)
      modifies this`useCache, this`trace
      ensures useCache
      ensures AsConfig() == old(AsConfig()).(useCache := true)
      ensures var target := DumpTarget(arg, filename, env);
        if CacheHit(target, true, env) then r == arg && trace == old(trace)
        else r == Some(target) && trace == old(trace) + DumpCalls(AsConfig(), target)
    {
      useCache := true;
      r := Dump(arg, env);
    }

    /**
     * restore: raises ArgumentError when neither an argument nor a
     * configured name is given; otherwise extracts the argument into the
     * dump directory, restores both stores and returns true.
     */
    method Restore(arg: Option<string>) returns (r: Result<bool, Error>)
      modifies this`trace
      ensures RestoreTarget(arg, filename).None? ==>
        r == Failure(ArgumentError("No filename specified")) && trace == old(trace)
      ensures RestoreTarget(arg, filename).Some? ==>
        r == Success(true) && trace == old(trace) + RestoreCalls(AsConfig(), arg)
    {
      var target := RestoreTarget(arg, filename);
      if target.None? {
        return Failure(ArgumentError("No filename specified"));
      }
      PrepareDumpDir();
      trace := trace + [TgzExtract(arg, dumpDir)];
      trace := trace + [DbRestore(sqlFilename)];
      trace := trace + [SolrRestore(solrFilename)];
      return Success(true);
    }
  }

  /** DataMarshal.dump: a fresh marshaller with no options dumps; it never reuses an archive. */
  method ClassDump(arg: Option<string>, railsRoot: string, env: Env) returns (r: Option<string>, calls: seq<Event>)
    ensures var target := DumpTarget(arg, None, env);
      r == Some(target) && calls == DumpCalls(Configure(NoOptions, railsRoot), target)
  {
    var m := new DataMarshal(NoOptions, railsRoot);
    r := m.Dump(arg, env);
    calls := m.trace;
  }

  /** DataMarshal.dump_cached: a fresh marshaller with no options dumps with caching on. */
  method ClassDumpCached(arg: Option<string>, railsRoot: string, env: Env) returns (r: Option<string>, calls: seq<Event>)
    ensures var target := DumpTarget(arg, None, env);
      if CacheHit(target, true, env) then r == arg && calls == []
      else r == Some(target) && calls == DumpCalls(Configure(NoOptions, railsRoot).(useCache := true), target)
  {
    var m := new DataMarshal(NoOptions, railsRoot);
    r := m.DumpCached(arg, env);
    calls := m.trace;
  }

  /** DataMarshal.restore: a fresh marshaller has no configured name, so nil raises. */
  method ClassRestore(arg: Option<string>, railsRoot: string) returns (r: Result<bool, Error>, calls: seq<Event>)
    ensures arg.None? ==> r == Failure(ArgumentError("No filename specified")) && calls == []
    ensures arg.Some? ==> r == Success(true) && calls == RestoreCalls(Configure(NoOptions, railsRoot), arg)
  {
    var m := new DataMarshal(NoOptions, railsRoot);
    r := m.Restore(arg);
    calls := m.trace;
  }
}

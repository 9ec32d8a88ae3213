/**
 * What the marshaller expects of its collaborators, as a state machine
 * over the two stores and the file system: a store dump writes the
 * store's state to a file, a store restore reads it back, the archive
 * codec packs named files and extracts them into a directory under those
 * names. Running the calls a dump records and then those a restore of the
 * produced archive records gives both stores back the state they had.
 */
module Stores {
  import opened Wrappers
  import opened Marshalling
  import RubyFile

  /** The contents of a file: a store's exported state, or an archive. */
  datatype Blob = Image(state: string) | Tgz(members: seq<Member>)
  datatype Member = Member(name: string, body: Blob)

  /** The state of the database, of the search index, and of every file. */
  datatype World = World(db: string, solr: string, files: map<string, Blob>)

  /** The archive members for `entries`; none when a file to pack is missing. */
  function Pack(files: map<string, Blob>, entries: seq<Entry>): (ms: Option<seq<Member>>)
    ensures ms.Some? <==> forall i :: 0 <= i < |entries| ==> entries[i].filename in files
    ensures ms.Some? ==> |ms.value| == |entries|
    ensures ms.Some? ==> forall i :: 0 <= i < |entries| ==>
      ms.value[i] == Member(entries[i].name, files[entries[i].filename])
  {
    if entries == [] then Some([])
    else if entries[0].filename !in files then None
    else match Pack(files, entries[1..])
      case None => None
      case Some(rest) => Some([Member(entries[0].name, files[entries[0].filename])] + rest)
  }

  /** The files after extracting `members` into `dir`, later members overwriting earlier ones. */
  function Unpack(files: map<string, Blob>, members: seq<Member>, dir: string): map<string, Blob>
    decreases |members|
  {
    if members == [] then files
    else Unpack(files[dir + "/" + members[0].name := members[0].body], members[1..], dir)
  }

  /** The effect of one call; none when the call fails. */
  function Step(w: World, e: Event): Option<World>
  {
    match e
    case Mkdir(_) => Some(w)
    case DbDump(p) => Some(w.(files := w.files[p := Image(w.db)]))
    case SolrDump(p) => Some(w.(files := w.files[p := Image(w.solr)]))
    case TgzCreate(target, entries) =>
      (match Pack(w.files, entries)
       case None => None
       case Some(ms) => Some(w.(files := w.files[target := Tgz(ms)])))
    case TgzExtract(archive, dir) =>
      if archive.Some? && archive.value in w.files && w.files[archive.value].Tgz?
      then Some(w.(files := Unpack(w.files, w.files[archive.value].members, dir)))
      else None
    case DbRestore(p) =>
      if p in w.files && w.files[p].Image? then Some(w.(db := w.files[p].state)) else None
    case SolrRestore(p) =>
      if p in w.files && w.files[p].Image? then Some(w.(solr := w.files[p].state)) else None
  }

  /** One more call after a run; a run that has failed stays failed. */
  function Then(run: Option<World>, e: Event): Option<World>
  {
    match run
    case None => None
    case Some(w) => Step(w, e)
  }

  /** The effect of a sequence of calls; a failing call aborts the rest. */
  function Run(start: Option<World>, calls: seq<Event>): Option<World>
    decreases |calls|
  {
    if calls == [] then start else Run(Then(start, calls[0]), calls[1..])
  }

  /** Running two sequences of calls one after the other. */
  lemma {:induction false} RunAppend(start: Option<World>, a: seq<Event>, b: seq<Event>)
    ensures Run(start, a + b) == Run(Run(start, a), b)
    decreases |a|
  {
    if a == [] {
      assert a + b == b;
    } else {
      assert (a + b)[0] == a[0] && (a + b)[1..] == a[1..] + b;
      RunAppend(Then(start, a[0]), a[1..], b);
    }
  }

  /** Running four calls is running each in turn. */
  lemma RunFour(start: Option<World>, e0: Event, e1: Event, e2: Event, e3: Event)
    ensures Run(start, [e0, e1, e2, e3]) == Then(Then(Then(Then(start, e0), e1), e2), e3)
  {
    var r1, r2, r3 := Then(start, e0), Then(Then(start, e0), e1), Then(Then(Then(start, e0), e1), e2);
    assert [e0, e1, e2, e3][1..] == [e1, e2, e3];
    assert [e1, e2, e3][1..] == [e2, e3];
    assert [e2, e3][1..] == [e3];
    assert [e3][1..] == [];
    assert Run(Then(r3, e3), []) == Then(r3, e3);
    assert Run(r3, [e3]) == Then(r3, e3);
    assert Run(r2, [e2, e3]) == Run(r3, [e3]);
    assert Run(r1, [e1, e2, e3]) == Run(r2, [e2, e3]);
  }

  /** Packing the two intermediate files of configuration `c`. */
  lemma PackEntries(files: map<string, Blob>, c: Config)
    requires c.sqlFilename in files && c.solrFilename in files
    ensures Pack(files, Entries(c)) == Some([Member(RubyFile.Basename(c.sqlFilename), files[c.sqlFilename]),
                                             Member(RubyFile.Basename(c.solrFilename), files[c.solrFilename])])
  {
    var es := Entries(c);
    var ms := Pack(files, es);
    assert ms.Some?;
    assert |ms.value| == 2;
    assert ms.value[0] == Member(es[0].name, files[es[0].filename]);
    assert ms.value[1] == Member(es[1].name, files[es[1].filename]);
    assert ms.value == [ms.value[0], ms.value[1]];
  }

  /** The archive a dump of world `w` produces, when the intermediate files are distinct. */
  function Snapshot(c: Config, w: World): Blob
  {
    Tgz([Member(RubyFile.Basename(c.sqlFilename), Image(w.db)),
         Member(RubyFile.Basename(c.solrFilename), Image(w.solr))])
  }

  /**
   * A dump that does not reuse an archive succeeds, leaves both stores
   * untouched and writes the target; when the intermediate files are
   * distinct, the target holds an image of each store under its file's
   * base name.
   */
  lemma DumpEffect(c: Config, target: string, w: World)
    ensures Run(Some(w), DumpCalls(c, target)).Some?
    ensures var after := Run(Some(w), DumpCalls(c, target)).value;
      after.db == w.db && after.solr == w.solr && target in after.files &&
      (c.sqlFilename != c.solrFilename ==> after.files[target] == Snapshot(c, w))
  {
    var w1 := w.(files := w.files[c.sqlFilename := Image(w.db)]);
    var w2 := w1.(files := w1.files[c.solrFilename := Image(w.solr)]);
    PackEntries(w2.files, c);
    var w3 := w2.(files := w2.files[target := Tgz(Pack(w2.files, Entries(c)).value)]);
    assert Then(Some(w2), TgzCreate(target, Entries(c))) == Some(w3);
    RunFour(Some(w), Mkdir(c.dumpDir), DbDump(c.sqlFilename), SolrDump(c.solrFilename),
            TgzCreate(target, Entries(c)));
  }

  /** Extracting a two-member archive writes both members into the directory, the second last. */
  lemma UnpackTwo(files: map<string, Blob>, m0: Member, m1: Member, dir: string)
    ensures Unpack(files, [m0, m1], dir) == files[dir + "/" + m0.name := m0.body][dir + "/" + m1.name := m1.body]
  {
    var f1 := files[dir + "/" + m0.name := m0.body];
    var f2 := f1[dir + "/" + m1.name := m1.body];
    assert [m0, m1][1..] == [m1];
    assert [m1][1..] == [];
    assert Unpack(f2, [], dir) == f2;
    assert Unpack(f1, [m1], dir) == f2;
  }

  /** Extracting a snapshot writes each image into `dir` under its file's base name. */
  lemma ExtractSnapshot(c: Config, archive: string, dir: string, w: World, v: World)
    requires archive in v.files && v.files[archive] == Snapshot(c, w)
    ensures Then(Some(v), TgzExtract(Some(archive), dir)) ==
      Some(v.(files := v.files[dir + "/" + RubyFile.Basename(c.sqlFilename) := Image(w.db)]
                              [dir + "/" + RubyFile.Basename(c.solrFilename) := Image(w.solr)]))
  {
    UnpackTwo(v.files, v.files[archive].members[0], v.files[archive].members[1], dir);
    assert v.files[archive].members == [v.files[archive].members[0], v.files[archive].members[1]];
  }

  /** Extracting a snapshot into the dump directory puts each image where its store reads it. */
  lemma ExtractInPlace(c: Config, archive: string, w: World, v: World)
    requires ExtractsInPlace(c)
    requires archive in v.files && v.files[archive] == Snapshot(c, w)
    ensures Then(Some(v), TgzExtract(Some(archive), c.dumpDir)) ==
      Some(v.(files := v.files[c.sqlFilename := Image(w.db)][c.solrFilename := Image(w.solr)]))
  {
    ExtractSnapshot(c, archive, c.dumpDir, w, v);
  }

  /**
   * Restoring a snapshot of world `w`, on any world `v` that holds it,
   * succeeds and gives both stores the state they had in `w`, whenever the
   * intermediate files lie in the dump directory under their base names.
   */
  lemma RestoreEffect(c: Config, archive: string, w: World, v: World)
    requires ExtractsInPlace(c)
    requires archive in v.files && v.files[archive] == Snapshot(c, w)
    ensures Run(Some(v), RestoreCalls(c, Some(archive))).Some?
    ensures Run(Some(v), RestoreCalls(c, Some(archive))).value.db == w.db
    ensures Run(Some(v), RestoreCalls(c, Some(archive))).value.solr == w.solr
  {
    ExtractInPlace(c, archive, w, v);
    var v1 := v.(files := v.files[c.sqlFilename := Image(w.db)][c.solrFilename := Image(w.solr)]);
    assert v1.files[c.sqlFilename] == Image(w.db) && v1.files[c.solrFilename] == Image(w.solr);
    ImageRestored(v1, c.sqlFilename);
    ImageRestored(v1.(db := w.db), c.solrFilename);
    RunFour(Some(v), Mkdir(c.dumpDir), TgzExtract(Some(archive), c.dumpDir),
            DbRestore(c.sqlFilename), SolrRestore(c.solrFilename));
  }

  /**
   * An archive a dump produces restores both stores to the state they had
   * when it was produced, on any machine the archive is copied to, as long
   * as the intermediate files lie in the dump directory under their base
   * names and are two different files (which the default configuration
   * guarantees, see DefaultLayout).
   */
  lemma DumpThenRestoreElsewhere(c: Config, target: string, w: World, v: World)
    requires ExtractsInPlace(c)
    requires target in v.files
    requires Run(Some(w), DumpCalls(c, target)).Some?
    requires target in Run(Some(w), DumpCalls(c, target)).value.files
    requires v.files[target] == Run(Some(w), DumpCalls(c, target)).value.files[target]
    ensures Run(Some(v), RestoreCalls(c, Some(target))).Some?
    ensures Run(Some(v), RestoreCalls(c, Some(target))).value.db == w.db
    ensures Run(Some(v), RestoreCalls(c, Some(target))).value.solr == w.solr
  {
    DumpEffect(c, target, w);
    RestoreEffect(c, target, w, v);
  }

  /** On one machine: dump, then restore what it produced, gives back both stores. */
  lemma DumpThenRestore(c: Config, target: string, w: World)
    requires ExtractsInPlace(c)
    ensures Run(Some(w), DumpCalls(c, target) + RestoreCalls(c, Some(target))).Some?
    ensures Run(Some(w), DumpCalls(c, target) + RestoreCalls(c, Some(target))).value.db == w.db
    ensures Run(Some(w), DumpCalls(c, target) + RestoreCalls(c, Some(target))).value.solr == w.solr
  {
    DumpEffect(c, target, w);
    RestoreEffect(c, target, w, Run(Some(w), DumpCalls(c, target)).value);
    RunAppend(Some(w), DumpCalls(c, target), RestoreCalls(c, Some(target)));
  }

  /**
   * restore with no argument, on a marshaller configured with a file name,
   * hands nil to the archive codec, so the restore fails at extraction
   * and neither store is restored.
   */
  lemma RestoreWithoutArgumentFails(c: Config, w: World)
    ensures Run(Some(w), RestoreCalls(c, None)) == None
  {
    RunFour(Some(w), Mkdir(c.dumpDir), TgzExtract(None, c.dumpDir),
            DbRestore(c.sqlFilename), SolrRestore(c.solrFilename));
  }

  /** A store restore from a file holding an image loads that image. */
  lemma ImageRestored(w: World, path: string)
    requires path in w.files && w.files[path].Image?
    ensures Then(Some(w), DbRestore(path)) == Some(w.(db := w.files[path].state))
    ensures Then(Some(w), SolrRestore(path)) == Some(w.(solr := w.files[path].state))
  {
  }

  /** A database restore from a file that does not exist fails. */
  lemma MissingImageNotRestored(w: World, path: string)
    requires path !in w.files
    ensures Then(Some(w), DbRestore(path)) == None
  {
  }

  /**
   * When sql_filename is overridden so that it is not the dump directory
   * joined with its own base name (and the search-index image does not
   * extract onto it either), the archive extracts the database image into
   * the dump directory but the restore reads the overridden path: on a
   * machine that lacks that file the restore fails.
   */
  lemma OverriddenSqlPathNotRestored(c: Config, archive: string, w: World, v: World)
    requires c.dumpDir + "/" + RubyFile.Basename(c.sqlFilename) != c.sqlFilename
    requires c.dumpDir + "/" + RubyFile.Basename(c.solrFilename) != c.sqlFilename
    requires c.sqlFilename !in v.files
    requires archive in v.files && v.files[archive] == Snapshot(c, w)
    ensures Run(Some(v), RestoreCalls(c, Some(archive))) == None
  {
    ExtractSnapshot(c, archive, c.dumpDir, w, v);
    var p0 := c.dumpDir + "/" + RubyFile.Basename(c.sqlFilename);
    var p1 := c.dumpDir + "/" + RubyFile.Basename(c.solrFilename);
    var v1 := v.(files := v.files[p0 := Image(w.db)][p1 := Image(w.solr)]);
    assert c.sqlFilename !in v1.files;
    MissingImageNotRestored(v1, c.sqlFilename);
    RunFour(Some(v), Mkdir(c.dumpDir), TgzExtract(Some(archive), c.dumpDir),
            DbRestore(c.sqlFilename), SolrRestore(c.solrFilename));
  }
  /**
   * One marshaller, caching off: dump with no argument, then restore what
   * the dump returned. The calls it records are the dump's followed by the
   * restore's, and under the in-place layout they give both stores back.
   */
  method DumpThenRestoreSession(opts: Options, railsRoot: string, env: Env, w: World)
    returns (dumped: Option<string>, restored: Result<bool, Error>, calls: seq<Event>)
    requires opts.useCache != Bool(true)
    ensures var c := Configure(opts, railsRoot);
      var target := DumpTarget(None, c.filename, env);
      dumped == Some(target) && restored == Success(true) &&
      calls == DumpCalls(c, target) + RestoreCalls(c, Some(target))
    ensures ExtractsInPlace(Configure(opts, railsRoot)) ==>
      Run(Some(w), calls).Some? && Run(Some(w), calls).value.db == w.db &&
      Run(Some(w), calls).value.solr == w.solr
  {
    var m := new DataMarshal(opts, railsRoot);
    ghost var c := Configure(opts, railsRoot);
    assert m.AsConfig() == c && !m.useCache;
    var target := DumpTarget(None, m.filename, env);
    dumped := m.Dump(None, env);
    assert dumped == Some(target) && m.trace == DumpCalls(c, target);
    restored := m.Restore(dumped);
    calls := m.trace;
    if ExtractsInPlace(c) {
      DumpThenRestore(c, target, w);
    }
  }
}
